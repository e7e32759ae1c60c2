# A verified model of the autonomous agent

This Dafny project models one run of the agent - the control loop, its planner,
selector, executor, learner and retry layer, and the event log it writes - and
the stateful and textual algorithms the run rests on: retrieval selection, the
SQLite stores, the object store, shell quoting, the curl framing, the criterion
grammar, tool names on the wire, path resolution and embeddings.

`dafny verify dfyconfig.toml` checks everything.

## How it is built

The language model, the tools, the sandbox, the memory store and the retriever
are adversaries: whatever they answer in a run is an arbitrary value, and every
one of their calls may fail. What the model would answer to the n-th call of a
run is a fixed but arbitrary function of n, so that contracts can name it. Everything else follows the sources step by step:
an object with fields is a class, a loop is a loop, and each method is proved
against a function or a predicate over values whose own properties are proved
as lemmas.

| files | what they model |
|---|---|
| `Support`, `Text`, `Lists`, `Records` | options and results, sets, JavaScript's string and array operations, the shape of a memory record |
| `Events`, `Trajectory`, `Session` | the event vocabulary, the projection of a log, the run session with its counters |
| `Models`, `Proposals`, `Planning`, `Actors` | instrumented and resilient model calls, proposal parsing, plans and revisions, selector, executor, learner |
| `Criteria`, `Evaluation` | the criterion grammar with its printer, the deterministic evaluator |
| `RunInvariant`, `AgentRuntime` | what holds at every moment of a run, and the loop that keeps it |
| `RankHits`, `Retrieval` | the greedy selection with kind diversity, the two retrievers |
| `MemoryStore`, `SemanticIndex`, `IndexedStore` | the SQLite tables as a list of records, the vector index, the store that keeps both in step |
| `SemanticRetrieval` | the hybrid retriever over the vector index |
| `Shell`, `Curl`, `ToolNames`, `WorkspacePath` | printers and parsers |
| `Embeddings`, `EmbeddingProvider` | cosine similarity, batches and strict parsing of embeddings |
| `ObjectStorage` | object keys and the two-file store as atomic steps with crashes |

Two devices recur. A run's log is summarised by two folds (`Project`, the
trajectory; `AuditOf`, the accounting of calls, lessons and terminal events)
that the session carries as ghost state. And predicates that the loop should
carry whole are spelt over the longest prefix of a list, so that the verifier
unfolds them only where a lemma named for it (`Unfold`, `Summary`, `PassOneIs`,
`GoingIs`) is called.

## What is assumed

- Identifiers minted in a run are fresh: the n-th one is `n`. Task ids in a plan stay distinct if and only if no
  revision echoes an unfinished task twice (`Planning.ModelPlanner.Revision`); the invariants of the run do not
  rely on it and speak of every copy.
- The event sink does not throw, and `run` is called once.
- Scores, vectors and thresholds are real numbers; the square root is any function that is one.
- `Number(text)`, `JSON.parse`, the set of terms of a text, the searchable text of a record and the
  text hash are parameters. Of `Number` it is only assumed that it reads three plain digits as what they say,
  and the empty text and `0` as zero; of a printed number, that it needs no shell quoting.
- The random part of a temporary file name is unused when it is chosen.
- A database scans its rows in any order, and any statement of a transaction may fail, except the ROLLBACK.
- A file that is opened holds tables that stand for some list of records, and vectors of stored records only.
- The names an object inherits are those of `Object.prototype` in ECMAScript 2024.

## Where the sources fall short of their own words

- `resolveWorkspacePath` with the workspace root `/` compares with `//` and refuses everything but `/`
  (`WorkspacePath.RootWorkspaceRefusesAll`, `WorkspacePath.RootWorkspaceCounterexample`).
- An overwriting `putObject` that stops between its two renames leaves old metadata over a new body. After any run
  a key reads as the metadata of one put over the body of another if and only if the last operation that took effect
  on it stopped there and the key was visible before (`ObjectStorage.MixedIffOverwrote`). The sizes disagree exactly
  when, besides, the two bodies differ in length (`ObjectStorage.AgreesIffSameSize`, `ObjectStorage.TornExample`), so
  such a tear may show in no size (`ObjectStorage.SameSizeTear`).
- `backfill` skips a record whose vector was made from an older text. A put leaves a vector of the stored text
  exactly when it was there already or nothing stands in the way of a new one, and a backfill without failures
  leaves all its records fresh if and only if those that had a vector before it were
  (`IndexedStore.IndexedMemoryStore.Put`, `IndexedStore.IndexedMemoryStore.Backfill`; a stale vector reached from
  empty tables in `IndexedStore.StaleExample`).
- The check of a JSON file's keys uses `in`, which also finds inherited names: it finds exactly the keys of the
  file if and only if no required key is one of them (`Evaluation.KeysAreTheFiles`).
- `invokeTool` is said never to throw for tool-level failures, and it turns what `execute` throws into a result, but
  not what `parseInput` throws. A counted call is reported if and only if the tool's parser does not throw on its
  input (`Actors.ToolExecutor.Execute`); otherwise the call is announced and no more (`Actors.UnreportedCall`), and the
  run fails (`Runtime.AgentRuntime.Attempt`, `Runtime.AgentRuntime.Run`). Every parser of the tools under `src/tools`
  returns, so only a tool registered from outside can do this.
- `ToolNameMap` is a bijection if and only if no name is given twice, and a tool named `finish` or `give_up`
  can never be called (`ToolNames.ToolNameMap.constructor`, `ToolNames.CallComesBack`).
- `shellQuote` does not wrap every argument in single quotes: it does so if and only if the argument is empty or
  holds an unsafe character (`Shell.QuotedIffUnsafe`, `Shell.BareExample`). The round trip holds for both forms.

## Model

| member | source | states |
|---|---|---|
| Runtime.AgentRuntime.Run | src/agent/runtime/agent-runtime.ts:92-119 | for every behaviour of model, tools, sandbox, memory and evaluator the run ends; its log is numbered 1..n with one terminal event, the last; the projected log carries the session's own counters, one step per attempt with the verdict of its own action, and the matching final status; iterations, tool calls and (without embeddings) model calls stay within their bounds; every attempt made a tool call that the model asked for, and its verdict is the right one on what its task's attempts had observed; `completed` means that every criterion of the goal held, for a finish claim in the model's own words on everything the run observed, and otherwise for every task of the plan on what its attempts observed, and it is impossible when the evaluator can never succeed; `gave_up` carries the reason that the model gave last; the plan's version counts the log's PLAN_UPDATED events, no task has two LESSON_CREATED, and the step of an attempt that an error cut short has no verdict; a call that was never observed is the last one of a failed run; the goal shown is the session's |
| Runtime.AgentRuntime.RunAndReplay | src/agent/runtime/trajectory.ts:51-203 | folding a finished run's log with `trajectoryFromEvents` gives back the goal, the live counters, attempts, retrievals with what was presented, and outcome; only presented records are cited, and those of the current plan are |
| Runtime.AgentRuntime.Loop | src/agent/runtime/agent-runtime.ts:205-232 | the loop terminates, keeps every limit at every moment, and ends only in a finished session or an error |
| Runtime.AgentRuntime.Turn | src/agent/runtime/agent-runtime.ts:207-231 | a pass either stops the run or uses up exactly one iteration that was still below its limit |
| Runtime.AgentRuntime.UnlimitedTurn | src/agent/runtime/agent-runtime.ts:220-230 | a turn begun below all limits cannot cross them, and without success adds only failed attempts |
| Runtime.TurnStaysWithin | src/agent/runtime/run-usage.ts:50-64 | checking limits before each turn bounds what one turn may use: one tool call and two logical model calls |
| Runtime.AgentRuntime.Iterate | src/agent/runtime/agent-runtime.ts:234-263 | a turn gives up, claims the end or acts, costs at most one tool call and two logical model calls, and at rest keeps all books in agreement |
| Runtime.AgentRuntime.Attempt | src/agent/runtime/agent-runtime.ts:265-379 | one attempt keeps log, counters, plan, attempt history and observations in agreement, also when an error cuts it short; a throwing input parser is such an error and leaves an unobserved step |
| Runtime.AgentRuntime.Conclude | src/agent/runtime/agent-runtime.ts:339-379 | a judged attempt files its records and then completes its task, or announces exactly its own failure, with its own correlation, and replans |
| Runtime.AgentRuntime.SelectAction | src/agent/runtime/agent-runtime.ts:279-317 | decision, retry and selection are announced in this order; a retry is counted by session and log alike, exactly for attempts that retry, and says whether tool or input changed; one step is begun for the action |
| Runtime.AgentRuntime.JudgeAction | src/agent/runtime/agent-runtime.ts:322-337 | the verdict is the right one on the observations of the task's earlier attempts and the new one, is announced as it is, and lands on the step of its own action |
| Runtime.AgentRuntime.FileRecords | src/agent/runtime/agent-runtime.ts:347-358 | an attempt's decision and experience records are written first and in that order, each announced under its own kind, and each write is counted three times over |
| Runtime.AgentRuntime.RecordLesson | src/agent/runtime/agent-runtime.ts:359-372 | a lesson is announced once for its task, and its record written after the announcement |
| Runtime.AgentRuntime.IngestKnowledge | src/agent/runtime/agent-runtime.ts:471-503 | ingesting changes only write accounting, however many records there are and wherever it fails |
| Runtime.AgentRuntime.CompleteTask | src/agent/runtime/agent-runtime.ts:374-377 | only a task whose last attempt succeeded is marked completed |
| Runtime.AgentRuntime.HandleFailure | src/agent/runtime/agent-runtime.ts:404-464 | a failure is announced with its gaps and its source; the old plan stays when the planner throws, and otherwise a revision of it that agrees with the history takes its place and is announced last |
| Runtime.AgentRuntime.AdoptRevision | src/agent/runtime/agent-runtime.ts:429-463 | plan version counts PLAN_UPDATED and strategy version counts strategy changes; both events carry the ids, version and reasons of the revision |
| Runtime.AgentRuntime.VerifyFinishClaim | src/agent/runtime/agent-runtime.ts:385-401 | a finish claim ends the run only after a successful goal-level evaluation of everything observed; a rejected claim is logged as its evaluation followed by the failure it found, and handled as one |
| Runtime.AgentRuntime.JudgeClaim | src/agent/runtime/agent-runtime.ts:386-394 | the verdict is the right one on everything the run observed and is announced and returned as it is; it never lands on a step that lacks a verdict |
| Runtime.AgentRuntime.AcceptClaim | src/agent/runtime/agent-runtime.ts:395-399 | an accepted claim, in the words of the model's last answer and confirmed on everything observed, completes the run with the remaining tasks skipped |
| Runtime.AgentRuntime.CompletePlan | src/agent/runtime/agent-runtime.ts:220-225 | when no task is left, every task of the plan is completed with a successful last attempt, and every criterion held on what the attempts at it observed |
| Runtime.AgentRuntime.StopAtLimit | src/agent/runtime/agent-runtime.ts:208-218 | a breach ends the run as `limit_reached`; the last event and the reason carry the limit, its value and its maximum |
| Runtime.AgentRuntime.GiveUp | src/agent/runtime/agent-runtime.ts:248-255 | giving up ends the run with the reason of the model's last answer and is reported as a failure of that cause |
| Runtime.AgentRuntime.CreateInitialPlan | src/agent/runtime/agent-runtime.ts:175-203 | the first plan agrees with an empty history, cites only presented records and is announced as it is |
| Runtime.AgentRuntime.RetrieveMemory | src/agent/runtime/agent-runtime.ts:123-173 | a search is announced with its text; when it completes it adds one retrieval, logged with what was presented; an error adds none and leaves the books agreeing |
| Runtime.AgentRuntime.Prepare | src/agent/runtime/agent-runtime.ts:95-99 | the run begins with a search for the goal's own statement and the first plan |
| Runtime.AgentRuntime.WriteRecord | src/agent/runtime/agent-runtime.ts:524-537 | a record counts in the session, in the runtime's list and in the log, or nowhere |
| Runtime.AgentRuntime.NoteWrite | src/agent/runtime/agent-runtime.ts:529-536 | counter, list and MEMORY_WRITTEN event move together |
| Runtime.AgentRuntime.CompleteGoal | src/agent/runtime/agent-runtime.ts:539-547 | GOAL_COMPLETED is the last event and agrees with status and summary |
| Runtime.AgentRuntime.Fail | src/agent/runtime/agent-runtime.ts:101-111 | an unhandled error ends the run as failed with the message that lists its details |
| RunInvariant.AttemptsAreTheHistory | src/agent/runtime/agent-runtime.ts:332-339 | grouping the history by task loses and invents no attempt |
| RunInvariant.AttemptAdded | src/agent/action-selector.ts:80-151 | attempts at a task stay numbered 1..n, each naming the one before, and only the last can be a success |
| RunInvariant.CompletedTaskSurvives | src/agent/planner.ts:186-196 | no revision, whatever is proposed, loses a completed task |
| RunInvariant.RevisionIsOk | src/agent/planner.ts:176-196 | after any revision a task is completed in the plan exactly when its last attempt succeeded |
| RunInvariant.NothingLeft | src/agent/runtime/plan-tasks.ts:7-14 | without a next task every task of the plan is completed with a success |
| RunInvariant.SomethingLeft | src/agent/runtime/agent-runtime.ts:220-225 | while no attempt succeeded there is always a next task |
| RunInvariant.TaskStarted | src/agent/runtime/plan-tasks.ts:21-26 | marking a task that has not succeeded as in progress keeps plan and history in agreement, for every copy of the task |
| RunInvariant.TaskFinished | src/agent/runtime/agent-runtime.ts:374-377 | marking the task that just succeeded as completed makes the plan exact again: completed tasks are those whose last attempt succeeded |
| RunInvariant.RunAccounting | src/agent/runtime/agent-runtime.ts:292-306 | in a run that no error cut short tool calls are the attempts and retries are tool calls minus tasks attempted |
| RunInvariant.PassedAreCounted | src/agent/runtime/agent-runtime.ts:513 | the announced number of passed checks is how many passed |
| RunInvariant.LessonsExactly | src/agent/learner.ts:53-57 | in such a run a task has a lesson if and only if it succeeded after failing |
| RunInvariant.RetrievalsReplayed | src/agent/runtime/trajectory.ts:182-191 | each replayed retrieval carries its hits and what was presented under its own id |
| RunInvariant.ClaimLeavesSteps | src/agent/runtime/trajectory.ts:205-211 | an evaluation without action id changes no step when every step is judged |
| Trajectories.TrajectoryFromEvents | src/agent/runtime/trajectory.ts:51-203 | the one-pass loop computes the fold of the log |
| Trajectories.StepFor | src/agent/runtime/trajectory.ts:205-211 | the last step of the given action, or none if there is none |
| Trajectories.AddAll | src/agent/runtime/trajectory.ts:92-97 | the cited ids are the union of all plans' ids |
| Trajectories.AddedOnce | src/agent/runtime/trajectory.ts:92-97 | ids cited before stay in front and no id is cited twice |
| Events.RunEventFactory.Create | src/events/factory.ts:24-42 | events are numbered consecutively |
| Sessions.RunSession.Emit | src/agent/runtime/run-session.ts:78-87 | one event is appended, numbered, and both summaries follow |
| Sessions.RunSession.RecordModelCallStarted | src/agent/runtime/run-session.ts:104-117 | every attempt counts when it starts and opens a call |
| Sessions.RunSession.RecordModelCall | src/agent/runtime/run-session.ts:119-137 | a completion adds its tokens to session and log alike and closes the open call |
| Sessions.RunSession.RecordModelCallFailed | src/agent/runtime/run-session.ts:139-155 | a failure closes the open call and counts as one |
| Sessions.RunSession.Finish | src/agent/runtime/run-session.ts:161-165 | status and reason are set together |
| Sessions.PairedCalls | src/models/instrumented-provider.ts:66-106 | in a log audited as paired, each start is followed at once by the one completion or failure of the same call, purpose and attempt |
| Sessions.NoTerminalEvent | src/agent/runtime/agent-runtime.ts:92-119 | a log with terminal count 0 holds no terminal event |
| Sessions.RunUsageTracker.Breach | src/agent/runtime/run-usage.ts:50-64 | a breach is the first limit reached, and none is reported exactly when every value is below its maximum |
| Sessions.RunUsageTracker.AddTokens | src/agent/runtime/run-usage.ts:37-43 | only the token totals move |
| Models.InstrumentedModelProvider.Observe | src/models/instrumented-provider.ts:66-106 | one call is one start and one matching end, counted alike by session and log, and returns what the model answers to it |
| Models.AttemptCounter.Next | src/models/resilient-provider.ts:128-139 | attempts are numbered consecutively |
| Models.ResilientModelProvider.DelayFor | src/models/resilient-provider.ts:121-125 | no wait exceeds the configured maximum, and a wait that the provider asked for is kept up to it |
| Models.ResilientModelProvider.WaitsDouble | src/models/resilient-provider.ts:121-125 | without a hint the first wait is the base delay and every further one twice the one before, up to the maximum |
| Models.RetryableIffTransient | src/models/errors.ts:28-33 | rate limits, network, timeout and server failures are retried, and no failure of another kind |
| Models.ResilientModelProvider.WithRetries | src/models/resilient-provider.ts:99-119 | returns the answer of the last call; every earlier call failed in a way that may pass, and the last did so only when the retries are spent, so a success or any other failure ends the loop at once; numbered calls, and between two of them the wait that the failure before calls for |
| Models.ResilientModelProvider.StructuredGenerate | src/models/resilient-provider.ts:66-80 | at most (maxRetries + 1)(maxReasks + 1) numbered calls; returns the last one's error or parse; every earlier one failed in passing or did not parse, an error is for good or the end of a retry budget, and a rejected parse is the end of the re-asks |
| Models.ResilientModelProvider.RequestToolAction | src/models/resilient-provider.ts:82-97 | the same for tool actions, where an answer in neither form is what is re-asked |
| Models.BoundKept | src/models/resilient-provider.ts:66-97 | each re-ask uses at most one more retry budget |
| Models.CallsCompose | src/models/resilient-provider.ts:66-119 | consecutive stretches of numbered calls join into one |
| Proposals.ParseTaskProposals | src/agent/planner.ts:261-280 | no error is pushed if and only if there is a non-empty list of well-formed tasks |
| Proposals.ReadTask | src/agent/planner.ts:266-279 | one item is accepted exactly when well formed, and read as the task it denotes |
| Proposals.ParsePlanProposal | src/agent/planner.ts:282-292 | accepts exactly the well-formed plans, with every task in order, at least one, the summary and the cited ids |
| Proposals.ParseRevisionProposal | src/agent/planner.ts:294-310 | accepts exactly the well-formed revisions, with their summary, reasons and cited ids; a changed strategy always has a reason |
| Proposals.PlanRoundTrip | src/agent/planner.ts:282-292 | a plan written as the JSON the prompt asks for is read back as it was |
| Proposals.RevisionRoundTrip | src/agent/planner.ts:294-310 | and so is a revision |
| Proposals.ReadStringArray | src/domain/parse.ts:40-53 | error-free exactly for an array of strings, or nothing where optional |
| Plans.FirstReady | src/agent/runtime/plan-tasks.ts:7-14 | the first task that is not done and whose dependencies are completed |
| Plans.ReadyMeans | src/agent/runtime/plan-tasks.ts:7-14 | a task is ready if and only if it is neither completed nor skipped and every task it depends on is completed |
| Plans.WithRemainingTasksSkipped | src/agent/runtime/plan-tasks.ts:28-35 | every task is done afterwards, and done tasks are untouched |
| Plans.TasksSplit | src/agent/planner.ts:187-196 | completed and unfinished tasks together are all tasks, each once |
| Plans.CompletedInOrder | src/agent/planner.ts:187-189 | the completed tasks keep their order |
| Plans.LastTaskCounts | src/agent/planner.ts:186 | of tasks with one id the last is the one a proposal can echo |
| Planning.Trusted | src/agent/planner.ts:238-250 | exactly the cited ids that were presented, each once |
| Planning.PresentedIds | src/agent/planner.ts:239-243 | exactly the ids of the retrieved hits |
| Planning.ModelPlanner.MaterialiseTasks | src/agent/planner.ts:211-235 | each proposal keeps the unfinished task it echoes or becomes a new pending one; two tasks share an id exactly when their proposals echo the same one |
| Planning.ModelPlanner.CreatePlan | src/agent/planner.ts:108-146 | a first plan is version 1 with at least one new pending task, after one logical call, citing only presented records; summary, citations and the words of every task are those of the model's last answer, and an error is its failure or what was wrong with it |
| Planning.ModelPlanner.RevisePlan | src/agent/planner.ts:148-204 | a revision keeps the completed tasks in front, adds at least one other, and counts its versions up by one; summary, reasons, citations and the words of the added tasks are those of the model's last answer, and an error is its failure or what was wrong with it |
| Planning.ModelPlanner.Revision | src/agent/planner.ts:165-203 | the strategy changes exactly when the proposal says so; distinct task ids stay distinct if and only if no unfinished task is echoed twice |
| Planning.RevisedTasks | src/agent/planner.ts:186-196 | what a revision adds is new or the same unfinished task reworded |
| Planning.IdsStayDistinct | src/agent/planner.ts:186-196 | a revision of a plan without repeated task ids has none either if and only if no two proposals echo the same unfinished task |
| Actors.ModelActionSelector.ToAction | src/agent/action-selector.ts:69-155 | the action continues the numbering of its task, names the attempt it retries, and carries fresh ids |
| Actors.ModelActionSelector.SelectNext | src/agent/action-selector.ts:34-67 | one logical call yields what its answer says: the next action with its tool, input and rationale, a finish claim with its summary, or a surrender with its reason; an error is the model's |
| Actors.ToolExecutor.Execute | src/agent/executor.ts:23-73 | one tool call is counted and announced; it is reported, and observed on its own action's step, if and only if the tool's input parser does not throw |
| Actors.ToolExecutor.InvokeTool | src/tools/registry.ts:64-120 | unknown tools, refused inputs and failures of the execution are results; it throws if and only if the parser does |
| Actors.UnreportedCall | src/tools/registry.ts:87 | a call that is counted and announced and never reported |
| Actors.OutcomeLearner.Learn | src/agent/learner.ts:26-60 | a lesson is derived exactly from a success with a failed attempt before it |
| Actors.RunEvaluator.Evaluate | src/evaluation/deterministic-evaluator.ts:25-64 | with the deterministic evaluator some answers of the sandbox make the verdict the right one on these observations; with no mechanical criterion it is inconclusive whatever happened |
| Actors.RunEvaluator.SuccessIsMet | src/evaluation/deterministic-evaluator.ts:25-64 | success is the right verdict if and only if there are criteria and every one of them held |
| Actors.RunEvaluator.SucceededIsMet | src/agent/runtime/agent-runtime.ts:322-339 | a task whose last attempt succeeded was confirmed on what its attempts observed |
| Evaluation.DeterministicEvaluator.Evaluate | src/evaluation/deterministic-evaluator.ts:25-64 | success means there are criteria and all hold, failure that none of some holds, inconclusive that there are none; the gaps name the criteria that did not hold, in order, and then the lines that cannot be checked; the status of the last tool is recorded first and decides nothing |
| Evaluation.DeterministicEvaluator.RunCriteria | src/evaluation/deterministic-evaluator.ts:30-33 | one decisive check per criterion in order, and an error exactly when a check that needs the sandbox finds none |
| Evaluation.DeterministicEvaluator.RunCriterion | src/evaluation/deterministic-evaluator.ts:90-260 | the branches of each check decide exactly whether its criterion holds, and it fails exactly when it needs an environment that fails |
| Evaluation.DeterministicEvaluator.RequiredKeysPresent | src/evaluation/deterministic-evaluator.ts:162-189 | collecting the missing keys decides whether all are there |
| Evaluation.EvidenceOfFailed | src/evaluation/deterministic-evaluator.ts:38-43 | the evidence of the failed checks names the criteria that did not hold, in order |
| Evaluation.KeysAreTheFiles | src/evaluation/deterministic-evaluator.ts:181-189 | the key check of a JSON file finds exactly the keys in the file, whatever the file, if and only if no required key is an inherited name |
| Evaluation.VerdictMeaning | src/evaluation/verdict.ts:8-13 | the verdict of the counts is the verdict of the outcomes |
| Evaluation.CountsOfChecks | src/evaluation/deterministic-evaluator.ts:35-43 | the decisive counts are the criteria and those that held |
| Evaluation.InconclusiveIffNoCriterion | src/evaluation/deterministic-evaluator.ts:26-46 | inconclusive if and only if no criterion is mechanical |
| Criteria.ParsedRoundTrips | src/domain/criteria.ts:37-83 | whatever the parser returns for any text is printed to a text that parses to the same criterion |
| Criteria.RoundTripIffCanonical | src/cli/config.ts:120-137 | a criterion survives printing and parsing if and only if it is canonical |
| Criteria.ParsedIsCanonical | src/domain/criteria.ts:37-83 | the parser returns only canonical criteria |
| Criteria.FormatReadsBack | src/cli/config.ts:120-137 | a canonical criterion, with `\|` in its marker or not, is read back from its printed form |
| Criteria.CollectCriteria | src/domain/criteria.ts:91-106 | structured criteria first, then every line that parses, in order; the other lines trimmed and kept |
| Text.SpaceIff | src/domain/criteria.ts:37-83 | what trimming removes are the white space and line terminators of ECMAScript, by their codes |
| Criteria.NothingParsed | src/domain/criteria.ts:91-106 | no criterion is collected from prose exactly when no line parses |
| Ranking.RankHits | src/memory/hybrid-retriever.ts:207-267 | on a sorted list of distinct records the result is the selection with its ranks, marks and drop reasons |
| Ranking.SelectionIsOptimal | src/memory/hybrid-retriever.ts:217-231 | with room for every kind no selection of the same size that covers every kind has a larger total score |
| Ranking.TightSelectionIsOptimal | src/memory/hybrid-retriever.ts:217-231 | without room for every kind the selection has one hit of as many kinds as fit, and no other such selection has a larger total score |
| Ranking.SelectionCovers | src/memory/hybrid-retriever.ts:217-231 | and the selection itself covers every kind |
| Ranking.FirstHitKept | src/memory/hybrid-retriever.ts:217-231 | with a limit of at least 1 the best hit is kept |
| Ranking.RankHitsAccounts | src/memory/hybrid-retriever.ts:240-266 | hits and drops add up to the input, final ranks never exceed ranks before selection and both increase, and kept-by-diversity hits equal displaced ones in number |
| Ranking.RankHitsPartition | src/memory/hybrid-retriever.ts:240-266 | every input hit is returned or dropped, never both, under its own rank |
| Ranking.KeptEqualsDisplaced | src/memory/hybrid-retriever.ts:233-264 | diversity trades one hit for one |
| Ranking.FillingIsBest | src/memory/hybrid-retriever.ts:227-230 | among selections with every kind's best hit, filling up in ranked order is best |
| Ranking.WithLeaders | src/memory/hybrid-retriever.ts:220-226 | replacing a hit by the best of its kind loses no score and no kind |
| Ranking.PickLeaders | src/memory/hybrid-retriever.ts:220-226 | the first pass chooses exactly the best hit of each kind, until full |
| Ranking.FillUp | src/memory/hybrid-retriever.ts:227-230 | the second pass leaves a full selection in which only leaders go ahead of better hits |
| Ranking.SortIdentity | src/memory/hybrid-retriever.ts:240-242 | sorting the selection again changes nothing |
| Ranking.BeforeIsOrder | src/memory/lexical-retriever.ts:135-140 | `compareHits` is a total order on hits of different records |
| Text.LessIff | src/memory/lexical-retriever.ts:135-140 | strings are compared by their first difference, a proper prefix first |
| Ranking.SortSorts | src/memory/lexical-retriever.ts:78 | sorting gives a strictly ordered list of the same hits |
| Retrieval.HybridRetriever.Retrieve | src/memory/hybrid-retriever.ts:86-149 | it fails exactly when a text needs the store and the store is closed; otherwise it ranks exactly the admitted candidates among the store's first `maxCandidates` matches and reports the signals that ran |
| Retrieval.CandidatesConserved | src/memory/hybrid-retriever.ts:107-149 | candidateCount is hits plus dropped plus unmatched |
| Retrieval.HitsAreAdmitted | src/memory/hybrid-retriever.ts:107-130 | every hit is a candidate with a common term or a similarity that reaches the threshold; its score is the weighted share of the terms in its own text, plus its own weighted similarity exactly when that reaches the threshold; signals and breakdown say so |
| Retrieval.DropsAreAdmitted | src/memory/hybrid-retriever.ts:107-149 | the same for every drop |
| Retrieval.RanksFollowScores | src/memory/hybrid-retriever.ts:132-149 | of two listed records the one with the higher such score ranks first, of equal scores the newer, and of equally old ones the smaller id |
| Retrieval.CloserRanksFirst | src/memory/hybrid-retriever.ts:107-149 | with the same share of the terms and similarities that reach the threshold the closer record ranks first |
| Retrieval.SemanticOnlyIfRan | src/memory/hybrid-retriever.ts:159-185 | no hit claims the semantic signal in a retrieval that did not run it, and a degraded retrieval never claims it |
| Retrieval.HybridRetriever.SemanticScores | src/memory/hybrid-retriever.ts:159-185 | the search ran exactly when there were candidates and the index answered; then every matched record, and no other, has a score, that of its last match; a failed search leaves no score and gives its reason |
| Retrieval.ScoresAreLast | src/memory/hybrid-retriever.ts:171-174 | a repeated match overrides: each id is scored by its last match |
| Retrieval.CandidatesAre | src/memory/hybrid-retriever.ts:91-98 | the candidates are stored records of the wanted kinds with all the tags, at most `maxCandidates`, none twice, none left out for a later one, and none left out below the maximum |
| Retrieval.CoverageRange | src/memory/hybrid-retriever.ts:151-157 | coverage lies in [0, 1], is positive exactly with a common term, and 1 exactly when all terms occur |
| Retrieval.LexicalRetriever.Retrieve | src/memory/lexical-retriever.ts:46-109 | it fails exactly when terms need the store and the store is closed; cutting the sorted matches among the store's first `maxCandidates` at the limit is what ranking without diversity does, and all counts agree |
| Retrieval.CutIsRanked | src/memory/lexical-retriever.ts:81-96 | slicing is the selection without diversity |
| Retrieval.DegradedIsLexical | src/memory/hybrid-retriever.ts:86-149 | without semantic scores and diversity the hybrid retriever returns and drops the same records in the same order as the lexical one |
| MemoryStore.SqliteMemoryStore.Put | src/memory/sqlite/sqlite-memory-store.ts:141-178 | a put that is invalid, conflicting or hit by any statement failure changes nothing, and the error says which, a failing BEGIN as the driver's own; any other makes the tables show the list with the record put |
| MemoryStore.RecordProblems | src/memory/validate.ts:26-53 | every field at fault is reported and no other, and none is exactly for a storable record |
| MemoryStore.SqliteMemoryStore.Upsert | src/memory/sqlite/sqlite-memory-store.ts:155-167 | the statements of the transaction keep columns, tag table and position in agreement with the list |
| MemoryStore.SqliteMemoryStore.Select | src/memory/sqlite/sqlite-memory-store.ts:194-205 | the answer is the list filtered, stably sorted by time and cut, in whatever order the database scans |
| MemoryStore.SqliteMemoryStore.Count | src/memory/sqlite/sqlite-memory-store.ts:207-214 | the number of matches without the limit |
| MemoryStore.SqliteMemoryStore.Get | src/memory/sqlite/sqlite-memory-store.ts:180-184 | the record as last put |
| MemoryStore.SqliteMemoryStore.NextPosition | src/memory/sqlite/sqlite-memory-store.ts:105-110 | a new record gets the next position in first-stored order |
| MemoryStore.SelectIsAnswer | src/memory/sqlite/sqlite-memory-store.ts:194-205 | ORDER BY created_at, seq over any scan is the stable sort of the list |
| MemoryStore.ClausesMeanQuery | src/memory/sqlite/sqlite-memory-store.ts:225-257 | the WHERE clauses hold of a row exactly when the query holds of its record |
| MemoryStore.AllTagsCounted | src/memory/sqlite/sqlite-memory-store.ts:243-251 | as many distinct tags as asked means all of them |
| MemoryStore.PositionIsStability | src/memory/store.ts:16-26 | ordering by time and position is the stable sort by time |
| MemoryStore.AnswerIsTheEarliest | src/memory/store.ts:16-26 | the answer holds exactly the matches, oldest first, those of one time in the order they were first stored, and no match left out is earlier than one returned |
| MemoryStore.TiesKeepTheirOrder | src/memory/store.ts:16-18 | of two answered records with the same timestamp the one stored first comes first |
| MemoryStore.AnswerIsDistinct | src/memory/store.ts:16-26 | no record is answered twice |
| MemoryStore.RunsNeverChange | src/memory/store.ts:20-26 | over any sequence of puts no record changes its run or its position |
| MemoryStore.PutShows | src/memory/sqlite/sqlite-memory-store.ts:155-167 | the upsert of the tables is the put of the list |
| SemanticIndex.SqliteSemanticIndex.Index | src/memory/sqlite/sqlite-semantic-index.ts:141-175 | current text costs nothing, any failure changes nothing and says which check failed; otherwise the row holds the vector that the embedder answered to this text, under its hash and at a position above all others |
| SemanticIndex.SqliteSemanticIndex.Search | src/memory/sqlite/sqlite-semantic-index.ts:196-225 | nothing is embedded when no row could match; otherwise the ranked similarities of the candidate rows, cut at the limit |
| SemanticIndex.FoundAreBest | src/memory/sqlite/sqlite-semantic-index.ts:208-242 | every match is an eligible row with its own similarity in [-1, 1]; matches come by falling similarity, ties by id, and no compared row left out is better |
| SemanticIndex.CandidatesAreNewest | src/memory/sqlite/sqlite-semantic-index.ts:227-243 | the rows compared are those of this model inside the asked set, newest first; one is left out only when the cap is reached, and then none that is kept is older |
| SemanticIndex.CurrentIsAnswered | src/memory/sqlite/sqlite-semantic-index.ts:141-175 | with a hash that tells texts apart, a current row that did not come with the file holds a vector that the embedder answered to this very text |
| SemanticIndex.FoundIgnoresScan | src/memory/sqlite/sqlite-semantic-index.ts:208-225 | every write takes a position of its own, and with distinct positions a search answers the same in whatever order the database visits its rows |
| SemanticRetrieval.Retrieve | src/memory/hybrid-retriever.ts:86-185 | over the real index, a hit claims the semantic signal, and is scored for it, if and only if its record's own vector, among those compared, is close enough to the question; every candidate with a close vector is a hit or a drop, and of two such with the same share of the terms the closer ranks first; a failed search only degrades |
| SemanticRetrieval.ScoreIsSimilarity | src/memory/hybrid-retriever.ts:171-174 | a record has a score if and only if one of the compared rows is its own and of the question's dimension, and the score is their similarity |
| SemanticRetrieval.NothingCut | src/memory/hybrid-retriever.ts:171-173 | asked for as many matches as there are candidates, the search leaves no compared row out |
| SemanticRetrieval.AdmittedIsListed | src/memory/hybrid-retriever.ts:107-149 | every candidate with a common term or a similarity that reaches the threshold is a hit or a drop |
| IndexedStore.IndexedMemoryStore.Put | src/memory/indexed-memory-store.ts:46-49 | a record is stored whatever embedding does; a vector exists only for stored records; afterwards its vector is of the stored text if and only if it was before or a new one could be made and written, and then it is the one the embedder answered to this text; the freshness of other records is unchanged |
| IndexedStore.IndexedMemoryStore.FreshIsAnswered | src/memory/indexed-memory-store.ts:46-101 | over all puts and backfills, with a hash that tells texts apart, a fresh row that did not come with the file holds a vector that the embedder returned for the record's current text |
| IndexedStore.IndexedMemoryStore.TryIndex | src/memory/indexed-memory-store.ts:91-101 | a failure is recorded once with its record, kind and error and leaves the index alone; a success leaves the row as it was, or the embedder's answer to this text |
| IndexedStore.IndexedMemoryStore.Backfill | src/memory/indexed-memory-store.ts:75-89 | examined is held plus indexed plus failed; without failures all are held; nothing is done when all were; a record is fresh afterwards exactly when it is held and, if held before, was fresh before, so without failures all are fresh if and only if those held before were |
| IndexedStore.IndexedMemoryStore.BackfillTwice | src/memory/indexed-memory-store.ts:75-89 | after a backfill without failures a second one indexes nothing |
| IndexedStore.IndexedMemoryStore.StaleVectorStays | src/memory/indexed-memory-store.ts:84 | a vector made from an older text survives a failed re-put and a backfill, for any store, record and query |
| IndexedStore.StaleExample | src/memory/indexed-memory-store.ts:46-89 | from empty tables, two puts and a backfill that reports one record examined and no failure leave a vector of the older text |
| IndexedStore.PutFreshness | src/memory/indexed-memory-store.ts:46-49 | a put decides the freshness of its own record from what is known before it, and of no other |
| IndexedStore.AllFreshIff | src/memory/indexed-memory-store.ts:75-89 | where a backfill leaves all its records held, they are all fresh exactly when the ones held before were |
| IndexedStore.PutKeepsStep | src/memory/indexed-memory-store.ts:46-49 | after a put embedded records are fresh and no vector is an orphan |
| Shell.ShellRoundTrip | src/tools/support/shell.ts:13-15 | a POSIX lexer (POSIX.1-2017 Shell Command Language, sections 2.2.1, 2.2.2 and 2.3) reads `shellJoin(argv)` back as exactly argv if and only if no argument holds a NUL |
| Shell.QuotedReads | src/tools/support/shell.ts:7-11 | a quoted argument adds exactly its own characters wherever a word may start or go on |
| Shell.QuotedIffUnsafe | src/tools/support/shell.ts:7-11 | an argument is printed between single quotes if and only if it is empty or holds an unsafe character |
| Text.AlphanumericIff | src/tools/support/shell.ts:7-11 | the ranges of the character classes hold the 26 letters twice and the ten digits, and nothing else |
| Shell.BareExample | src/tools/support/shell.ts:9 | `ls` is printed bare |
| Shell.ShellJoinInjective | src/tools/support/shell.ts:13-15 | two argument lists never print the same command |
| CloudflareSandbox.WrappingUnwraps | src/sandbox/cloudflare/cloudflare-sandbox-environment.ts:83-93 | unwrapping the nested `timeout ... sh -c` gives back the command, the input path and the deadline |
| CloudflareSandbox.StdinReadsBack | src/sandbox/cloudflare/cloudflare-sandbox-environment.ts:84-89 | the redirected form reads back as command and path |
| CloudflareSandbox.CloudflareSandboxEnvironment.DeadlineInSeconds | src/sandbox/cloudflare/cloudflare-sandbox-environment.ts:90-92 | the deadline is printed in seconds and is never less than a tenth of one |
| CloudflareSandbox.CloudflareSandboxEnvironment.RunCommand | src/sandbox/cloudflare/cloudflare-sandbox-environment.ts:79-131 | only the wrapped command is executed, the shell reads it back as the command with its input and deadline, a staged input is deleted last whatever fails, and the result follows from exit status, deadline and error |
| CloudflareSandbox.StdinPathsDiffer | src/sandbox/cloudflare/cloudflare-sandbox-environment.ts:85-86 | no two staged inputs share a path |
| CloudflareSandbox.NoExitCodeIffTimedOut | src/sandbox/cloudflare/cloudflare-sandbox-environment.ts:95-121 | a missing exit code means a timeout, and only a command that ran until its deadline times out; output and all other exit codes, 124 and 137 included, are passed on, and each kind of client error becomes its own error |
| Curl.CurlRoundTrip | src/tools/http/curl-client.ts:138-176 | for every exit code, size and body, with or without a write-out, the parser reports exactly the run the script printed |
| Curl.NothingPrinted | src/tools/http/curl-client.ts:153-163 | a run in which curl printed nothing and failed, as when it is not installed, is an error that carries the exit code |
| Curl.FramesReadBack | src/tools/http/curl-client.ts:114-157 | the frames are read back if and only if neither the write-out nor the header dump holds a marker; the body may hold anything |
| Curl.BodyWholeIffNotTruncated | src/tools/http/curl-client.ts:164-172 | the body is whole exactly when it is not marked truncated, which is when it fits the limit |
| ToolNames.ToolNameMap.constructor | src/models/openai-compatible/wire.ts:160-173 | every name gets its own wire name of `[A-Za-z0-9_-]` that maps back to it; the two maps are inverse if and only if no name repeats |
| ToolNames.ToolNameMap.FreshWire | src/models/openai-compatible/wire.ts:166-169 | the suffix search ends with the first free candidate |
| ToolNames.TryNext | src/models/openai-compatible/wire.ts:168-169 | every further suffix uses up one taken name, so the search is finite |
| ToolNames.CandidatesDiffer | src/models/openai-compatible/wire.ts:168-169 | no two suffixes give the same candidate |
| ToolNames.ReservedOnlyFromItself | src/models/openai-compatible/wire.ts:150-173 | only a tool of that very name can get a pseudo-tool's wire name |
| ToolNames.CallComesBack | src/models/openai-compatible/wire.ts:559-575 | a call under a tool's wire name comes back as that tool if and only if its arguments are well formed and the tool is not named like a pseudo-tool |
| ToolNames.OnlyOfferedTools | src/models/openai-compatible/wire.ts:496-580 | whatever the model answers, a tool it gets to call was offered |
| ToolNames.CallReadsBack | src/models/openai-compatible/wire.ts:463-553 | a tool call written as JSON is read back as it was if and only if its tool is known and not named like a pseudo-tool, no text in it is empty and its confidence lies in [0, 1] |
| ToolNames.EndsReadBack | src/models/openai-compatible/wire.ts:505-515 | a finish is read if and only if it has a summary and a rationale, a surrender if and only if it has a reason |
| WorkspacePath.NormalisePosix | src/tools/support/workspace-path.ts:24-35 | the loop computes where following the path from the root leads |
| WorkspacePath.NormaliseIdempotent | src/tools/support/workspace-path.ts:24-35 | normalising is idempotent and is the identity exactly on canonical paths |
| WorkspacePath.SegmentsAreProper | src/tools/support/workspace-path.ts:24-35 | the result has no empty, `.` or `..` segment |
| WorkspacePath.OnePart | src/tools/support/workspace-path.ts:24-35 | behind a path `..` goes up, stops at the root and leaves a workspace, `.` and nothing stay, and a name goes down |
| WorkspacePath.DownAndUp | src/tools/support/workspace-path.ts:24-35 | a name and then `..` lead back |
| WorkspacePath.ResolveWorkspacePath | src/tools/support/workspace-path.ts:12-21 | the string tests decide exactly whether the input, followed from the root or the workspace, ends inside the workspace |
| WorkspacePath.InsideIsStructural | src/tools/support/workspace-path.ts:19 | the string-prefix test is the segment-prefix test, except for a workspace at `/` |
| WorkspacePath.AcceptedIffInside | src/tools/support/workspace-path.ts:12-21 | for a root other than `/` acceptance is exactly being inside, and the answer is the canonical path |
| WorkspacePath.RelativeWalk | src/tools/support/workspace-path.ts:16-18 | a relative input is followed from the workspace root |
| WorkspacePath.ResolvedTwice | src/tools/support/workspace-path.ts:12-21 | an accepted path is accepted again, unchanged |
| WorkspacePath.RootWorkspaceRefusesAll | src/tools/support/workspace-path.ts:19 | with the root `/` only `/` itself is accepted |
| WorkspacePath.RootWorkspaceCounterexample | src/tools/support/workspace-path.ts:19 | `a` lies inside `/` and is refused |
| Cosine.CosineSimilarity | src/models/embeddings.ts:42-58 | an error exactly for different lengths, otherwise the similarity |
| Cosine.CauchySchwarz | src/models/embeddings.ts:46-57 | for vectors of any length the squared dot product is at most the product of the squared norms |
| Cosine.SimilarityRange | src/models/embeddings.ts:41-58 | similarity lies in [-1, 1] |
| Cosine.SimilaritySymmetric | src/models/embeddings.ts:42-58 | it is symmetric |
| Cosine.SimilarityScaled | src/models/embeddings.ts:42-58 | it is unchanged by positive scaling |
| Cosine.OneIffSameDirection | src/models/embeddings.ts:42-58 | it is 1 exactly for positive multiples |
| EmbeddingProvider.ParseEmbeddings | src/models/openai-compatible/embedding-provider.ts:140-187 | success if and only if every item carries one numeric vector, is for an input - the one its numeric `index` names, or its own place - and no two are for the same; then every input has the vector of its own item |
| EmbeddingProvider.PlacedAsNamed | src/models/openai-compatible/embedding-provider.ts:155-178 | item by item: a numeric index is whole, in range and used once, and there the item's vector is; without one the vector is at the item's own place |
| EmbeddingProvider.AllTaken | src/models/openai-compatible/embedding-provider.ts:155-178 | n items under distinct slots in range fill every slot |
| EmbeddingProvider.OrderedIsUnique | src/models/openai-compatible/embedding-provider.ts:155-178 | distinct indices leave one possible order |
| EmbeddingProvider.OpenAICompatibleEmbeddingProvider.Embed | src/models/openai-compatible/embedding-provider.ts:73-115 | success if and only if no text is blank, every batch is answered well and all vectors have one dimension, the requested or earlier observed one; then exactly one vector per text, in text order over all batches; each failure has its kind |
| EmbeddingProvider.OpenAICompatibleEmbeddingProvider.EmbedBatches | src/models/openai-compatible/embedding-provider.ts:83-104 | the batches succeed if and only if every answer is well formed for its batch, and text i gets the vector of its own place; otherwise the error is that of the first batch that is not |
| EmbeddingProvider.OpenAICompatibleEmbeddingProvider.CheckDimensions | src/models/openai-compatible/embedding-provider.ts:117-136 | accepted exactly when all dimensions agree with each other and with the expected one, which is learned once |
| Keys.KeyProblems | src/storage/keys.ts:14-36 | no problem if and only if the key is in the grammar, and never more than one: the first part that is not, by what is wrong with it |
| Keys.KeysStayInside | src/storage/keys.ts:3-9 | no part of a key is empty or climbs |
| ObjectStorage.NoKeyReadsAsNull | src/storage/local/filesystem-storage.ts:57-119 | after any sequence of puts and deletes, each stopped anywhere, a key with visible metadata reads as an object whose whole body and metadata were put for it |
| ObjectStorage.RunsAreSound | src/storage/local/filesystem-storage.ts:57-119 | visible metadata always has a body |
| ObjectStorage.PutIsReadBack | src/storage/local/filesystem-storage.ts:57-89 | a finished put is read back byte for byte, whatever happens to other keys afterwards, and as long as no later operation on the key takes effect |
| ObjectStorage.FinishedReadsBack | src/storage/local/filesystem-storage.ts:57-119 | a finished put reads as its object, a finished delete as nothing |
| ObjectStorage.OthersUntouched | src/storage/local/filesystem-storage.ts:145-151 | no operation touches the object of another key |
| ObjectStorage.AgreesUnlessTorn | src/storage/local/filesystem-storage.ts:71-76 | an operation that takes effect leaves sizes that disagree exactly when it is an overwriting put of another size that stopped between its renames; any other leaves the agreement as it was |
| ObjectStorage.ReadsWhatItDenotes | src/storage/local/filesystem-storage.ts:57-119 | after any run of puts and deletes, each stopped anywhere, reading the files gives what the operations on that key alone denote |
| ObjectStorage.ReadsItsOrigin | src/storage/local/filesystem-storage.ts:57-119 | after any run from an empty store a key reads as the metadata and the body of the puts it comes from |
| ObjectStorage.MixedIffOverwrote | src/storage/local/filesystem-storage.ts:71-76 | a key mixes two puts if and only if the last operation that took effect on it stopped between its renames and the key was visible before |
| ObjectStorage.OwnPairIff | src/storage/local/filesystem-storage.ts:57-119 | both halves of a put are read back if and only if it finished and no later operation on the key took effect |
| ObjectStorage.AgreesIffSameSize | src/storage/local/filesystem-storage.ts:71-76 | after any run the sizes disagree if and only if the key mixes two puts of different sizes |
| ObjectStorage.SameSizeTear | src/storage/local/filesystem-storage.ts:71-76 | a run whose tear shows in no size |
| ObjectStorage.TornExample | src/storage/local/filesystem-storage.ts:71-76 | such a put exists |
| ObjectStorage.WriteLeaves | src/storage/local/filesystem-storage.ts:169-179 | an atomic write replaces its file or leaves it, and touches nothing else but its temporary file |
| ObjectStorage.MetadataPathInjective | src/storage/local/filesystem-storage.ts:149-151 | different keys have different metadata files |
| ObjectStorage.FilesystemStorage.PutObject | src/storage/local/filesystem-storage.ts:57-77 | the steps of a put up to where it stops; success is reported exactly when both renames happened |
| ObjectStorage.FilesystemStorage.DeleteObject | src/storage/local/filesystem-storage.ts:111-119 | metadata goes first, the body second |
| ObjectStorage.FilesystemStorage.GetObject | src/storage/local/filesystem-storage.ts:79-89 | on a sound store a valid key fails to read if and only if its metadata path is a directory, and a visible key never fails |
| ObjectStorage.MetadataInside | src/storage/local/filesystem-storage.ts:149-151 | a metadata path is a directory of another key's metadata exactly when that key continues the first with `.json/` |
| ObjectStorage.FilesystemStorage.ListObjects | src/storage/local/filesystem-storage.ts:121-143 | the sorted visible keys with the prefix, cut at the limit, each of which reads as an object |

## Left out

- `ModelPlanner`, `ModelActionSelector`: the text of prompts and the working-memory view handed to the model.
- `OutcomeLearner.contrastLesson`: what a lesson says and which preconditions it lists.
- `annotateApplicability`: how preconditions are checked; which hits are violated is arbitrary here.
- The fields of events that only carry rendering data or times, and the run state snapshot.
- The duration limit is checked before each turn against an arbitrary elapsed time; nothing bounds the time inside one call.
- Evidence and summary wording of checks, where the name of the criterion stands for its evidence, and the error messages of failed parses, beyond whether there are any.
- `extractJson`, `JSON.parse`, `htmlToText` and redaction, which rest on library engines.
- Tokenising and stopwords of `lexicalTerms`.
- SHA-256, the float32 encoding of vectors and all float rounding; `Number` on anything but plain digits.
- UTF-16 code units: strings are sequences of characters, and a body cut inside a multi-byte character is not modelled.
- Shell grammar beyond tokens: assignment words, reserved words, here-documents and io numbers. Unquoted characters that may start an expansion make the lexer fail rather than expand.
- `parseLastHeaderBlock`: the header dump is passed on as text; `curlArgv` and the argument validation around it.
- `Retrieval.HybridRetriever`: its own methods take any answer of an index; `SemanticRetrieval` puts the SQLite index behind them.
- `MemoryStore.SqliteMemoryStore`: opening, schema version and corrupt rows; the body column is the record itself.
- `SqliteSemanticIndex.count`, and rows written by other handles of the same file while a call is under way.
- `EmbeddingProvider`: token usage and latency sums; the transport.
- `ObjectStorage.FilesystemStorage`: which directories exist is arbitrary, so a key whose path is a directory shows as a failing write, delete or read; two writers at once and symbolic links are not modelled.
- `Runtime.Announces`: for a reached limit the session's reason and the trajectory's summary are compared by limit, value and maximum; the sources print two different texts of them.
- `IndexedStore.IndexedMemoryStore.TryIndex`: an `onIndexFailure` callback that throws.
- `CloudflareSandboxEnvironment`: processes, state, environment variables and working directory.
- `ToolNames.ProposalFromToolCall`: the confidence and alternatives of a proposal are validated but not kept.
- Docker, the gateway protocol, the HTTP servers, the command line and the dashboard.
