// src/events/contracts.ts and src/events/factory.ts: the event vocabulary of
// one run. Payload fields that only carry rendering data or wall-clock times
// are omitted.

module Events {
  import opened Support

  datatype Verdict = Success | Partial | Failure | Inconclusive
  datatype ToolStatus = ToolOk | ToolError | NoTool
  datatype FailureSource = ToolFailure | EvaluationFailure
  datatype Cause = GaveUpCause | Unrecoverable
  datatype Purpose = CreatePlan | RevisePlan | SelectAction | EmbedMemory | EmbedQuery
  datatype LimitName = MaxIterations | MaxToolCalls | MaxModelCalls | MaxTotalTokens | MaxDurationMs

  /** The correlation fields that the trajectory projection and the lesson accounting read. */
  datatype Correlation = Correlation(taskId: Option<Id>, actionId: Option<Id>)

  const NO_CORRELATION := Correlation(None, None)

  datatype Payload =
    | GoalReceived(statement: string)
    | MemorySearchStarted(retrievalId: Id, queryText: string)
    | MemoryRetrieved(retrievalId: Id, recordIds: seq<Id>, signalsUsed: seq<string>, suppressed: bool)
    | MemoryPresented(retrievalId: Id, recordIds: seq<Id>, violatedRecordIds: seq<Id>)
    | PlanCreated(planId: Id, version: nat, strategyId: Id, taskCount: nat, informedBy: seq<Id>)
    | PlanUpdated(planId: Id, previousPlanId: Id, version: nat, reason: string, taskCount: nat, informedBy: seq<Id>)
    | StrategyChanged(previousStrategyId: Id, newStrategyId: Id, reason: string, summary: string)
    | DecisionCreated(decisionId: Id, summary: string)
    | RetryStarted(retryOf: Id, attempt: nat, changedApproach: bool)
    | ToolSelected(toolName: string, intent: string, attempt: nat, inputSummary: string)
    | ToolStarted(toolName: string)
    | ToolActivity(detail: string)  // the seven COMMAND_*, FILE_* and BROWSER_* types a tool may emit
    | ToolCompleted(toolName: string, summary: string)
    | ToolFailed(toolName: string, message: string)
    | EvaluationCompleted(evaluationId: Id, verdict: Verdict, checksPassed: nat, checksTotal: nat,
                          gapCount: nat, toolStatus: ToolStatus, evaluatorName: string)
    | FailureDetected(summary: string, source: FailureSource)
    | KnowledgeIngested(recordId: Id)
    | LessonCreated(lessonId: Id)
    | MemoryWritten(recordId: Id, kind: string)
    | ModelCallStarted(modelCallId: Id, purpose: Purpose, attempt: nat)
    | ModelCallCompleted(modelCallId: Id, purpose: Purpose, attempt: nat,
                         inputTokens: int, outputTokens: int, latencyMs: int)
    | ModelCallFailed(modelCallId: Id, purpose: Purpose, attempt: nat, latencyMs: int)
    | GoalCompleted(summary: string, iterations: nat)
    | GoalFailed(reason: string, iterations: nat, cause: Cause)
    | RunLimitReached(limit: LimitName, value: int, max: int)
  {
    predicate IsTerminal() { GoalCompleted? || GoalFailed? || RunLimitReached? }
  }

  datatype Event = Event(sequence: nat, correlation: Correlation, payload: Payload)

  class RunEventFactory {
    var sequence: nat

    constructor ()
      ensures sequence == 0
    {
      sequence := 0;
    }

    method Create(payload: Payload, correlation: Correlation) returns (event: Event)
      modifies this
      ensures sequence == old(sequence) + 1
      ensures event == Event(sequence, correlation, payload)
    {
      sequence := sequence + 1;
      event := Event(sequence, correlation, payload);
    }
  }
}
