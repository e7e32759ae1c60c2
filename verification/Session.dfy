// src/agent/runtime/run-usage.ts and src/agent/runtime/run-session.ts: the
// counters, the status and the event log of one run. The session's sink is its
// own `log`; two ghost summaries of that log are kept beside it so that each
// operation can say what its events add up to.

module Sessions {
  import opened Support
  import opened Events
  import opened Trajectories

  datatype Limits = Limits(maxIterations: int, maxToolCalls: int, maxModelCalls: int, maxTotalTokens: int,
                           maxDurationMs: int)
  datatype Usage = Usage(iterations: nat, toolCalls: nat, modelCalls: nat, inputTokens: int, outputTokens: int,
                         memoryReads: nat, memoryWrites: nat, retries: nat, strategyChanges: nat)
  datatype Counter = Iterations | ToolCalls | ModelCalls | MemoryReads | MemoryWrites | Retries | StrategyChanges

  const ZERO_USAGE := Usage(0, 0, 0, 0, 0, 0, 0, 0, 0)

  function Bumped(u: Usage, counter: Counter): Usage {
    match counter
    case Iterations => u.(iterations := u.iterations + 1)
    case ToolCalls => u.(toolCalls := u.toolCalls + 1)
    case ModelCalls => u.(modelCalls := u.modelCalls + 1)
    case MemoryReads => u.(memoryReads := u.memoryReads + 1)
    case MemoryWrites => u.(memoryWrites := u.memoryWrites + 1)
    case Retries => u.(retries := u.retries + 1)
    case StrategyChanges => u.(strategyChanges := u.strategyChanges + 1)
  }

  datatype LimitBreach = LimitBreach(limit: LimitName, value: int, max: int)

  function Checks(l: Limits, u: Usage, elapsedMs: int): seq<LimitBreach> {
    [LimitBreach(MaxIterations, u.iterations, l.maxIterations),
     LimitBreach(MaxToolCalls, u.toolCalls, l.maxToolCalls),
     LimitBreach(MaxModelCalls, u.modelCalls, l.maxModelCalls),
     LimitBreach(MaxTotalTokens, u.inputTokens + u.outputTokens, l.maxTotalTokens),
     LimitBreach(MaxDurationMs, elapsedMs, l.maxDurationMs)]
  }

  class RunUsageTracker {
    const limits: Limits
    var usage: Usage

    constructor (limits: Limits)
      ensures this.limits == limits && usage == ZERO_USAGE
    {
      this.limits, usage := limits, ZERO_USAGE;
    }

    method Increment(counter: Counter)
      modifies this
      ensures usage == Bumped(old(usage), counter)
    {
      usage := Bumped(usage, counter);
    }

    method AddTokens(inputTokens: int, outputTokens: int)
      modifies this
      ensures usage == old(usage).(inputTokens := old(usage).inputTokens + inputTokens,
                                   outputTokens := old(usage).outputTokens + outputTokens)
    {
      usage := usage.(inputTokens := usage.inputTokens + inputTokens,
                      outputTokens := usage.outputTokens + outputTokens);
    }

    /** The check that fails first, in their fixed order. The clock may read any `elapsedMs`. */
    method Breach(elapsedMs: int) returns (breach: Option<LimitBreach>)
      ensures breach.None? <==> forall c :: c in Checks(limits, usage, elapsedMs) ==> c.value < c.max
      ensures breach.Some? ==>
                exists k :: 0 <= k < 5 && Checks(limits, usage, elapsedMs)[k] == breach.value &&
                            breach.value.value >= breach.value.max &&
                            forall j :: 0 <= j < k ==> var c := Checks(limits, usage, elapsedMs)[j]; c.value < c.max
    {
      var checks := Checks(limits, usage, elapsedMs);
      for i := 0 to |checks|
        invariant forall j :: 0 <= j < i ==> checks[j].value < checks[j].max
      {
        if checks[i].value >= checks[i].max {
          return Some(checks[i]);
        }
      }
      return None;
    }
  }

  // ------------------------------------------------------------ the log audit

  datatype CallStart = CallStart(modelCallId: Id, purpose: Purpose, attempt: nat)

  /** Model calls seen so far: every start, the one still unanswered, and whether each start was answered at once. */
  datatype CallAudit = CallAudit(starts: seq<CallStart>, open: Option<CallStart>, paired: bool)

  /** What the run-level theorems read off the log besides the trajectory. */
  datatype Audit = Audit(planUpdates: nat, terminals: nat, lessonTasks: seq<Option<Id>>, calls: CallAudit)

  const EMPTY_AUDIT := Audit(0, 0, [], CallAudit([], None, true))

  function AuditCall(a: CallAudit, payload: Payload): CallAudit {
    match payload
    case ModelCallStarted(id, purpose, attempt) =>
      var start := CallStart(id, purpose, attempt);
      CallAudit(a.starts + [start], Some(start), a.paired && a.open.None?)
    case ModelCallCompleted(id, purpose, attempt, _, _, _) =>
      a.(open := None, paired := a.paired && a.open == Some(CallStart(id, purpose, attempt)))
    case ModelCallFailed(id, purpose, attempt, _) =>
      a.(open := None, paired := a.paired && a.open == Some(CallStart(id, purpose, attempt)))
    case _ => a.(paired := a.paired && a.open.None?)
  }

  function Absorb(a: Audit, event: Event): Audit {
    Audit(a.planUpdates + (if event.payload.PlanUpdated? then 1 else 0),
          a.terminals + (if event.payload.IsTerminal() then 1 else 0),
          if event.payload.LessonCreated? then a.lessonTasks + [event.correlation.taskId] else a.lessonTasks,
          AuditCall(a.calls, event.payload))
  }

  function AuditOf(log: seq<Event>): Audit {
    if log == [] then EMPTY_AUDIT else Absorb(AuditOf(log[..|log| - 1]), log[|log| - 1])
  }

  lemma AuditAppend(log: seq<Event>, event: Event)
    ensures AuditOf(log + [event]) == Absorb(AuditOf(log), event)
  {
    assert (log + [event])[..|log|] == log;
  }

  predicate Numbered(log: seq<Event>) {
    forall i :: 0 <= i < |log| ==> log[i].sequence == i + 1
  }

  /** The second event answers the first: same call, same purpose, same attempt. */
  predicate Answers(start: Payload, end: Payload) {
    && start.ModelCallStarted?
    && ((end.ModelCallCompleted? && end.modelCallId == start.modelCallId && end.purpose == start.purpose
         && end.attempt == start.attempt)
        || (end.ModelCallFailed? && end.modelCallId == start.modelCallId && end.purpose == start.purpose
            && end.attempt == start.attempt))
  }

  /** What `paired` means on the log itself: starts and ends alternate, and each end answers the event before it. */
  lemma {:induction false} PairedCalls(log: seq<Event>)
    requires AuditOf(log).calls.paired
    ensures forall i :: 0 <= i < |log| && log[i].payload.ModelCallStarted? && i + 1 < |log| ==>
              Answers(log[i].payload, log[i + 1].payload)
    ensures forall i :: 0 <= i < |log| && (log[i].payload.ModelCallCompleted? || log[i].payload.ModelCallFailed?) ==>
              0 < i && Answers(log[i - 1].payload, log[i].payload)
    ensures var open := AuditOf(log).calls.open;
            if |log| > 0 && log[|log| - 1].payload.ModelCallStarted?
            then open == Some(CallStart(log[|log| - 1].payload.modelCallId, log[|log| - 1].payload.purpose,
                                        log[|log| - 1].payload.attempt))
            else open.None?
  {
    if log != [] {
      PairedCalls(log[..|log| - 1]);
    }
  }

  /** `terminals` counts the terminal events. */
  lemma {:induction false} NoTerminalEvent(log: seq<Event>)
    requires AuditOf(log).terminals == 0
    ensures forall i :: 0 <= i < |log| ==> !log[i].payload.IsTerminal()
  {
    if log != [] {
      NoTerminalEvent(log[..|log| - 1]);
    }
  }

  // --------------------------------------------------------------- the session

  /**
   * The two summaries are those of the whole log. The log is spelt as its own
   * longest prefix so that the verifier unfolds the folds only where a proof asks for it.
   */
  ghost predicate Summarises(log: seq<Event>, traj: Trajectory, audit: Audit) {
    forall k :: k == |log| ==> traj == Project(log[..k]) && audit == AuditOf(log[..k])
  }

  lemma Summary(log: seq<Event>, traj: Trajectory, audit: Audit)
    ensures Summarises(log, traj, audit) <==> traj == Project(log) && audit == AuditOf(log)
  {
    assert log[..|log|] == log;
  }

  lemma SummaryAppend(log: seq<Event>, traj: Trajectory, audit: Audit, event: Event)
    requires Summarises(log, traj, audit)
    ensures Summarises(log + [event], Apply(traj, event), Absorb(audit, event))
  {
    Summary(log, traj, audit);
    Summary(log + [event], Apply(traj, event), Absorb(audit, event));
    ProjectAppend(log, event);
    AuditAppend(log, event);
  }

  datatype RunStatus = Created | Running | Completed | GaveUp | FailedStatus | LimitReached | Stopped

  datatype ToolResult = ToolResult(toolName: string, status: ToolStatus, output: string, error: string,
                                   httpStatus: Option<real>)
  datatype Observation = Observation(observationId: Id, actionId: Id, toolResult: ToolResult, summary: string)

  predicate IsQuiet(p: Payload) {
    p.MemorySearchStarted? || p.DecisionCreated? || p.ToolStarted? || p.ToolActivity? || p.FailureDetected? || p.KnowledgeIngested?
  }

  /** The counters that both the session and the trajectory keep. */
  predicate InSync(u: Usage, t: Tally) {
    && t.retries == u.retries
    && t.strategyChanges == u.strategyChanges
    && t.memoryWrites == u.memoryWrites
    && t.modelCalls == u.modelCalls
    && t.inputTokens == u.inputTokens
    && t.outputTokens == u.outputTokens
  }

  /** Only model-call accounting moved, by `n` calls, and both sides moved alike. */
  predicate OnlyModelCalls(u0: Usage, t0: Tally, u1: Usage, t1: Tally, n: nat) {
    && u1 == u0.(modelCalls := u0.modelCalls + n, inputTokens := u1.inputTokens, outputTokens := u1.outputTokens)
    && t1 == t0.(modelCalls := t0.modelCalls + n, inputTokens := t0.inputTokens + (u1.inputTokens - u0.inputTokens),
                 outputTokens := t0.outputTokens + (u1.outputTokens - u0.outputTokens),
                 modelFailures := t1.modelFailures, latencyMs := t1.latencyMs)
  }

  class RunSession {
    const goalStatement: string
    const tracker: RunUsageTracker
    const factory: RunEventFactory
    var status: RunStatus
    var terminationReason: Option<Reason>
    var nextId: Id
    var observations: seq<Observation>  // the part of working memory that evaluation reads
    var log: seq<Event>
    ghost var traj: Trajectory
    ghost var audit: Audit

    ghost predicate Valid()
      reads this, factory
    {
      && factory.sequence == |log|
      && Numbered(log)
      && Summarises(log, traj, audit)
    }

    constructor (goalStatement: string, limits: Limits)
      ensures Valid() && fresh(tracker) && fresh(factory)
      ensures this.goalStatement == goalStatement && tracker.limits == limits
      ensures status == Created && log == [] && tracker.usage == ZERO_USAGE
      ensures traj == EMPTY_TRAJECTORY && audit == EMPTY_AUDIT && observations == []
    {
      this.goalStatement := goalStatement;
      tracker := new RunUsageTracker(limits);
      factory := new RunEventFactory();
      status, terminationReason, nextId, observations, log := Created, None, 0, [], [];
      traj, audit := EMPTY_TRAJECTORY, EMPTY_AUDIT;
      new;
      Summary(log, traj, audit);
    }

    method NextId() returns (id: Id)
      modifies this`nextId
      ensures id == old(nextId) && nextId == old(nextId) + 1
    {
      id, nextId := nextId, nextId + 1;
    }

    method Emit(payload: Payload, correlation: Correlation)
      requires Valid()
      modifies this`log, this`traj, this`audit, factory
      ensures Valid()
      ensures log == old(log) + [Event(|old(log)| + 1, correlation, payload)]
      ensures traj == Apply(old(traj), log[|old(log)|])
      ensures audit == Absorb(old(audit), log[|old(log)|])
    {
      var event := factory.Create(payload, correlation);
      SummaryAppend(log, traj, audit, event);
      log := log + [event];
      traj, audit := Apply(traj, event), Absorb(audit, event);
    }

    /** Events that neither the projection nor the audit counts. */
    method EmitQuiet(payload: Payload, correlation: Correlation)
      requires Valid() && IsQuiet(payload) && audit.calls.open.None?
      modifies this`log, this`traj, this`audit, factory
      ensures Valid() && traj == old(traj) && audit == old(audit)
      ensures log == old(log) + [Event(|old(log)| + 1, correlation, payload)]
    {
      Emit(payload, correlation);
    }

    // The events that the projection or the audit counts, with what each one adds.

    method EmitMemoryWritten(recordId: Id, kind: string, c: Correlation)
      requires Valid() && audit.calls.open.None?
      modifies this`log, this`traj, this`audit, factory
      ensures Valid() && audit == old(audit)
      ensures log == old(log) + [Event(|old(log)| + 1, c, MemoryWritten(recordId, kind))]
      ensures traj == old(traj).(tally := old(traj).tally.(memoryWrites := old(traj).tally.memoryWrites + 1))
    {
      Emit(MemoryWritten(recordId, kind), c);
    }

    method EmitRetry(retryOf: Id, attempt: nat, changedApproach: bool, c: Correlation)
      requires Valid() && audit.calls.open.None?
      modifies this`log, this`traj, this`audit, factory
      ensures Valid() && audit == old(audit)
      ensures log == old(log) + [Event(|old(log)| + 1, c, RetryStarted(retryOf, attempt, changedApproach))]
      ensures traj == old(traj).(tally := old(traj).tally.(retries := old(traj).tally.retries + 1))
    {
      Emit(RetryStarted(retryOf, attempt, changedApproach), c);
    }

    method EmitStrategyChange(previous: Id, next: Id, reason: string, summary: string)
      requires Valid() && audit.calls.open.None?
      modifies this`log, this`traj, this`audit, factory
      ensures Valid() && audit == old(audit)
      ensures log == old(log) + [Event(|old(log)| + 1, NO_CORRELATION, StrategyChanged(previous, next, reason, summary))]
      ensures traj == old(traj).(tally := old(traj).tally.(strategyChanges := old(traj).tally.strategyChanges + 1))
    {
      Emit(StrategyChanged(previous, next, reason, summary), NO_CORRELATION);
    }

    method EmitPlan(payload: Payload)
      requires Valid() && audit.calls.open.None? && (payload.PlanCreated? || payload.PlanUpdated?)
      modifies this`log, this`traj, this`audit, factory
      ensures Valid() && log == old(log) + [Event(|old(log)| + 1, NO_CORRELATION, payload)]
      ensures audit == old(audit).(planUpdates := old(audit).planUpdates + if payload.PlanUpdated? then 1 else 0)
      ensures traj == old(traj).(memory := old(traj).memory.(cited := AddAll(old(traj).memory.cited, payload.informedBy)))
    {
      Emit(payload, NO_CORRELATION);
    }

    method EmitToolSelected(toolName: string, intent: string, attempt: nat, inputSummary: string, c: Correlation)
      requires Valid() && audit.calls.open.None?
      modifies this`log, this`traj, this`audit, factory
      ensures Valid() && audit == old(audit)
      ensures log == old(log) + [Event(|old(log)| + 1, c, ToolSelected(toolName, intent, attempt, inputSummary))]
      ensures traj == old(traj).(steps := old(traj).steps +
                [Step(|old(traj).steps|, c.taskId, c.actionId, toolName, intent, attempt, inputSummary, None, None)])
    {
      Emit(ToolSelected(toolName, intent, attempt, inputSummary), c);
    }

    method EmitEvaluation(j: Judged, toolStatus: ToolStatus, c: Correlation)
      requires Valid() && audit.calls.open.None? && j.evaluatorName != Some("")
      modifies this`log, this`traj, this`audit, factory
      ensures Valid() && audit == old(audit)
      ensures log == old(log) + [Event(|old(log)| + 1, c, EvaluationCompleted(j.evaluationId, j.verdict, j.checksPassed,
                j.checksTotal, j.gaps, toolStatus, j.evaluatorName.GetOr("")))]
      ensures traj == old(traj).(steps := Judge(old(traj).steps, c.actionId, j))
    {
      Emit(EvaluationCompleted(j.evaluationId, j.verdict, j.checksPassed, j.checksTotal, j.gaps, toolStatus,
                               j.evaluatorName.GetOr("")), c);
    }

    method EmitLesson(lessonId: Id, c: Correlation)
      requires Valid() && audit.calls.open.None?
      modifies this`log, this`traj, this`audit, factory
      ensures Valid() && log == old(log) + [Event(|old(log)| + 1, c, LessonCreated(lessonId))] && traj == old(traj)
      ensures audit == old(audit).(lessonTasks := old(audit).lessonTasks + [c.taskId])
    {
      Emit(LessonCreated(lessonId), c);
    }

    method EmitRetrieval(retrievalId: Id, recordIds: seq<Id>, violated: seq<Id>, signals: seq<string>, suppressed: bool)
      requires Valid() && audit.calls.open.None?
      modifies this`log, this`traj, this`audit, factory
      ensures Valid() && audit == old(audit)
      ensures log == old(log) + [Event(|old(log)| + 1, NO_CORRELATION, MemoryRetrieved(retrievalId, recordIds, signals, suppressed)),
                                 Event(|old(log)| + 2, NO_CORRELATION, MemoryPresented(retrievalId, recordIds, violated))]
      ensures traj == old(traj).(memory := old(traj).memory.(
                retrievals := old(traj).memory.retrievals + [RetrievalView(retrievalId, recordIds, signals, suppressed, [], [])],
                presentedBy := old(traj).memory.presentedBy[retrievalId := Presentation(recordIds, violated)]))
    {
      Emit(MemoryRetrieved(retrievalId, recordIds, signals, suppressed), NO_CORRELATION);
      Emit(MemoryPresented(retrievalId, recordIds, violated), NO_CORRELATION);
    }

    /** Every attempt counts the moment it starts. */
    method RecordModelCallStarted(start: CallStart)
      requires Valid()
      modifies this`log, this`traj, this`audit, factory, tracker
      ensures Valid()
      ensures tracker.usage == Bumped(old(tracker.usage), ModelCalls)
      ensures log == old(log) + [Event(|old(log)| + 1, NO_CORRELATION, ModelCallStarted(start.modelCallId, start.purpose, start.attempt))]
      ensures traj == old(traj)
      ensures audit == old(audit).(calls := CallAudit(old(audit).calls.starts + [start], Some(start),
                                                      old(audit).calls.paired && old(audit).calls.open.None?))
    {
      tracker.Increment(ModelCalls);
      Emit(ModelCallStarted(start.modelCallId, start.purpose, start.attempt), NO_CORRELATION);
    }

    method RecordModelCall(start: CallStart, inputTokens: int, outputTokens: int, latencyMs: int)
      requires Valid()
      modifies this`log, this`traj, this`audit, factory, tracker
      ensures Valid()
      ensures tracker.usage == old(tracker.usage).(inputTokens := old(tracker.usage).inputTokens + inputTokens,
                                                   outputTokens := old(tracker.usage).outputTokens + outputTokens)
      ensures old(log) <= log
      ensures traj == old(traj).(tally := old(traj).tally.(
                modelCalls := old(traj).tally.modelCalls + 1,
                inputTokens := old(traj).tally.inputTokens + inputTokens,
                outputTokens := old(traj).tally.outputTokens + outputTokens,
                latencyMs := old(traj).tally.latencyMs + latencyMs))
      ensures audit == old(audit).(calls := old(audit).calls.(
                open := None, paired := old(audit).calls.paired && old(audit).calls.open == Some(start)))
    {
      tracker.AddTokens(inputTokens, outputTokens);
      Emit(ModelCallCompleted(start.modelCallId, start.purpose, start.attempt, inputTokens, outputTokens, latencyMs),
           NO_CORRELATION);
    }

    method RecordModelCallFailed(start: CallStart, latencyMs: int)
      requires Valid()
      modifies this`log, this`traj, this`audit, factory
      ensures Valid()
      ensures old(log) <= log
      ensures traj == old(traj).(tally := old(traj).tally.(
                modelCalls := old(traj).tally.modelCalls + 1,
                modelFailures := old(traj).tally.modelFailures + 1,
                latencyMs := old(traj).tally.latencyMs + latencyMs))
      ensures audit == old(audit).(calls := old(audit).calls.(
                open := None, paired := old(audit).calls.paired && old(audit).calls.open == Some(start)))
    {
      Emit(ModelCallFailed(start.modelCallId, start.purpose, start.attempt, latencyMs), NO_CORRELATION);
    }

    method MarkRunning()
      modifies this`status
      ensures status == Running
    {
      status := Running;
    }

    method Finish(status: RunStatus, reason: Reason)
      requires status != Created && status != Running
      modifies this`status, this`terminationReason
      ensures this.status == status && terminationReason == Some(reason)
    {
      this.status, terminationReason := status, Some(reason);
    }

    predicate IsFinished()
      reads this`status
    {
      status != Created && status != Running
    }
  }
}
