// src/agent/runtime/agent-runtime.ts: the autonomous control loop. The model,
// the tools, the sandbox, the memory store and the retriever are adversaries:
// whatever they answer is an arbitrary value.

module Runtime {
  import opened Support
  import opened Events
  import opened Trajectories
  import opened Sessions
  import opened Json
  import opened Text
  import opened Models
  import opened Plans
  import opened Planning
  import opened Evaluation
  import opened RunInvariant
  import opened Actors

  const PLAN_COMPLETED := "All planned tasks were completed and confirmed by evaluation"

  /** At most one attempt was added, and it did not succeed. */
  ghost predicate OneMoreFailure(before: seq<TaskAttempt>, after: seq<TaskAttempt>) {
    after == before ||
    (|after| == |before| + 1 && after[..|before|] == before && after[|before|].evaluation.verdict != Success)
  }

  /** Decision, retry of the last attempt if there was one, selection. */
  predicate SelectionShown(events: seq<Event>, previous: seq<TaskAttempt>, action: Action, decision: Decision) {
    && |events| == (if previous == [] then 2 else 3)
    && events[0].payload == DecisionCreated(decision.decisionId, decision.summary)
    && (previous != [] ==>
          var last := previous[|previous| - 1].action;
          events[1].payload == RetryStarted(action.retryOf.GetOr(0), action.attempt,
                                            !(last.toolName == action.toolName && last.input == action.input)))
    && var selected := events[|events| - 1].payload;
       selected.ToolSelected? && selected.toolName == action.toolName && selected.intent == action.intent && selected.attempt == action.attempt
  }

  /** The event is in the log, at its own number. */
  ghost predicate Shown(log: seq<Event>, payload: Payload, c: Correlation) {
    exists i :: 0 <= i < |log| && log[i] == Event(i + 1, c, payload)
  }

  lemma ShownLast(log: seq<Event>, payload: Payload, c: Correlation)
    ensures Shown(log + [Event(|log| + 1, c, payload)], payload, c)
  {
    assert (log + [Event(|log| + 1, c, payload)])[|log|] == Event(|log| + 1, c, payload);
  }

  lemma StillShown(before: seq<Event>, after: seq<Event>, payload: Payload, c: Correlation)
    requires before <= after && Shown(before, payload, c)
    ensures Shown(after, payload, c)
  {
    var i :| 0 <= i < |before| && before[i] == Event(i + 1, c, payload);
    assert after[i] == before[i];
  }

  /** The last event announces the plan. */
  predicate PlanShown(log: seq<Event>, plan: Plan) {
    log != [] &&
    var e := log[|log| - 1].payload;
    && e.PlanCreated? && e.planId == plan.planId && e.version == plan.version && e.strategyId == plan.strategy.strategyId
    && e.taskCount == |plan.tasks| && e.informedBy == plan.informedBy
  }

  /** The last event announces the new version of the plan; just before it comes the new strategy, if it is new. */
  predicate RevisionShown(log: seq<Event>, previous: Plan, revised: Plan) {
    && log != []
    && var e := log[|log| - 1].payload;
       && e.PlanUpdated? && e.planId == revised.planId && e.previousPlanId == previous.planId && e.version == revised.version
       && e.taskCount == |revised.tasks| && e.informedBy == revised.informedBy
       && (revised.revisionReason.Some? ==> e.reason == revised.revisionReason.value)
       && (revised.strategy.strategyId != previous.strategy.strategyId ==>
             |log| >= 2 && NewStrategyShown(log[|log| - 2].payload, previous.strategy, revised.strategy))
  }

  predicate NewStrategyShown(e: Payload, previous: Strategy, revised: Strategy) {
    && e.StrategyChanged? && e.previousStrategyId == previous.strategyId && e.newStrategyId == revised.strategyId
    && e.summary == revised.summary && (revised.changeReason.Some? ==> e.reason == revised.changeReason.value)
  }

  /** The announced failure: its gaps, or else its summary, and whether a tool or the evaluation found it. */
  function FailureOf(e: EvaluationResult): Payload {
    var gaps := Join(e.gaps, "; ");
    FailureDetected(if gaps != "" then gaps else e.summary, if e.toolStatus == ToolError then ToolFailure else EvaluationFailure)
  }

  /** The event that reports an evaluation. */
  function EvaluationOf(e: EvaluationResult): Payload {
    EvaluationCompleted(e.evaluationId, e.verdict, PassedChecks(e.checks), |e.checks|, |e.gaps|, e.toolStatus, e.evaluatorName)
  }

  /** Nothing was called, or the embedding model was, once and for this purpose. */
  ghost predicate AtMostOneCall(l0: Ledger, l1: Ledger, purpose: Purpose) {
    l1 == l0 || CallsMade(l0, l1, purpose, 1, 1)
  }

  predicate StrategyDiffers(plan: Option<Plan>, revised: Plan) {
    plan.Some? && revised.strategy.strategyId != plan.value.strategy.strategyId
  }

  class AgentRuntime {
    const session: RunSession
    const model: ResilientModelProvider
    const planner: ModelPlanner
    const selector: ModelActionSelector
    const executor: ToolExecutor
    const evaluator: RunEvaluator
    const learner: OutcomeLearner
    const renderInput: Json -> string  // the capped JSON text of a tool input
    const embeddings: bool             // whether the memory store and the retriever call an embedding model

    var plan: Option<Plan>
    var retrievals: seq<RetrievalResult>
    var attempts: Attempts
    var written: seq<Id>
    var lessons: seq<Id>
    ghost var history: seq<TaskAttempt>  // all attempts, in the order they were made

    constructor (session: RunSession, options: Resilience, asTaskId: string -> Id, asRecordId: string -> Id,
                 deterministic: Option<DeterministicEvaluator>, renderInput: Json -> string,
                 parserThrows: (string, Json) -> bool, answers: Model, embeddings: bool)
      requires deterministic.Some? ==> deterministic.value.session == session
      requires session.Valid() && session.log == [] && session.tracker.usage == ZERO_USAGE
      ensures this.session == session && this.embeddings == embeddings && this.renderInput == renderInput
      ensures evaluator.deterministic == deterministic && model.options == options && executor.parserThrows == parserThrows
      ensures model.inner.model == answers
      ensures plan == None && attempts == map[] && history == [] && written == [] && lessons == [] && retrievals == []
      ensures InStep() && Grounded()
    {
      var instrumented := new InstrumentedModelProvider(session, answers);
      var resilient := new ResilientModelProvider(instrumented, options);
      var modelPlanner := new ModelPlanner(resilient, asTaskId, asRecordId);
      var modelSelector := new ModelActionSelector(resilient);
      var toolExecutor := new ToolExecutor(session, parserThrows);
      var runEvaluator := new RunEvaluator(session, deterministic);
      var outcomeLearner := new OutcomeLearner(session);
      this.session, model, planner, selector := session, resilient, modelPlanner, modelSelector;
      executor, evaluator, learner := toolExecutor, runEvaluator, outcomeLearner;
      this.renderInput, this.embeddings := renderInput, embeddings;
      plan, retrievals, attempts, written, lessons, history := None, [], map[], [], [], [];
      new;
      Summary(session.log, session.traj, session.audit);
      Unfold(BooksNow(), renderInput);
    }

    ghost predicate Wired() {
      && model.inner.session == session && planner.model == model && selector.model == model
      && executor.session == session && evaluator.session == session && evaluator.Wired() && learner.session == session
    }

    ghost function BooksNow(): Books
      reads this, session, session.tracker
    {
      Books(session.tracker.usage, session.traj, session.audit, session.nextId, plan, attempts, history, retrievals,
            |written|, |lessons|)
    }

    /** The goal that the trajectory shows. */
    ghost function Goal(): Option<string>
      reads session
    {
      session.traj.outcome.goalStatement
    }

    ghost predicate InStep()
      reads this, session, session.tracker, session.factory, model
    {
      Wired() && session.Valid() && model.DelaysCapped() && LogOpen(session.audit) && Agree(BooksNow(), renderInput)
    }

    /** Every recorded attempt made a tool call that the model asked for, and its verdict was made from its task's observations. */
    ghost predicate Grounded()
      reads this`attempts, this`history
    {
      evaluator.AttemptsJudged(attempts) && AllAsked(model.inner.model, history)
    }

    /** Working memory holds the observations of all attempts, in order. */
    ghost predicate Remembered()
      reads this`history, session`observations
    {
      session.observations == Seen(history)
    }

    /** What the model's last answer proposed. */
    ghost function LastProposal(): Option<Proposal>
      requires Wired()
      reads session.tracker
    {
      if model.LastAnswer().Ok? then Some(model.LastAnswer().value.proposal) else None
    }

    // ------------------------------------------------------------ memory writes

    /** The store or the retriever may call the embedding model, once. */
    method CallEmbedding(purpose: Purpose)
      requires InStep()
      modifies session`log, session`traj, session`audit, session`nextId, session.factory, session.tracker
      ensures InStep() && old(session.log) <= session.log
      ensures OnlyCallsMoved(old(BooksNow()), BooksNow())
      ensures !embeddings ==> BooksNow() == old(BooksNow())
      ensures AtMostOneCall(old(LedgerOf(session)), LedgerOf(session), purpose)
    {
      var used: bool := *;
      if embeddings && used {
        ghost var b := BooksNow();
        var _ := model.inner.Observe(purpose, 1);
        CallsKeepCoherent(b, BooksNow(), {}, {}, renderInput);
      }
    }

    /** The store's `put`: it may embed the record, and it may throw. */
    method StoreRecord(ghost unplanned: set<Id>, ghost unlearned: set<Id>) returns (r: Completion<RunError>)
      requires InStep()
      modifies session`log, session`traj, session`audit, session`nextId, session.factory, session.tracker
      ensures InStep() && old(session.log) <= session.log
      ensures OnlyCallsMoved(old(BooksNow()), BooksNow())
      ensures !embeddings ==> BooksNow() == old(BooksNow())
      ensures AtMostOneCall(old(LedgerOf(session)), LedgerOf(session), EmbedMemory)
      ensures old(RestedBut(BooksNow(), unplanned, unlearned)) ==> RestedBut(BooksNow(), unplanned, unlearned)
    {
      ghost var b := BooksNow();
      CallEmbedding(EmbedMemory);
      CallsKeepCoherent(b, BooksNow(), unplanned, unlearned, renderInput);
      r := *;
    }

    method WriteRecord(recordId: Id, kind: string, c: Correlation, ghost unplanned: set<Id>, ghost unlearned: set<Id>)
      returns (r: Completion<RunError>)
      requires InStep()
      modifies this`written, session`log, session`traj, session`audit, session`nextId, session.factory, session.tracker
      ensures InStep() && old(session.log) <= session.log
      ensures Filed(old(BooksNow()), BooksNow()) && Within(old(BooksNow()), BooksNow(), 0, 0, embeddings)
      ensures old(RestedBut(BooksNow(), unplanned, unlearned)) ==> RestedBut(BooksNow(), unplanned, unlearned)
      ensures written == if r.Done? then old(written) + [recordId] else old(written)
      ensures r.Done? ==> Shown(session.log, MemoryWritten(recordId, kind), c)
    {
      r := StoreRecord(unplanned, unlearned);
      if r.Threw? {
        return;
      }
      ShownLast(session.log, MemoryWritten(recordId, kind), c);
      NoteWrite(recordId, kind, c, unplanned, unlearned);
      r := Done;
    }

    /** A stored record is counted, noted and announced. */
    method NoteWrite(recordId: Id, kind: string, c: Correlation, ghost unplanned: set<Id>, ghost unlearned: set<Id>)
      requires InStep()
      modifies this`written, session`log, session`traj, session`audit, session.factory, session.tracker
      ensures InStep() && OneWrite(old(BooksNow()), BooksNow())
      ensures session.log == old(session.log) + [Event(|old(session.log)| + 1, c, MemoryWritten(recordId, kind))]
      ensures old(RestedBut(BooksNow(), unplanned, unlearned)) ==> RestedBut(BooksNow(), unplanned, unlearned)
      ensures written == old(written) + [recordId]
    {
      ghost var b := BooksNow();
      session.tracker.Increment(MemoryWrites);
      written := written + [recordId];
      session.EmitMemoryWritten(recordId, kind, c);
      WriteKeepsCoherent(b, BooksNow(), unplanned, unlearned, renderInput);
    }

    // ------------------------------------------------------- learning from an attempt

    /** Knowledge is ingested whatever the verdict was. */
    method IngestKnowledge(c: Correlation, ghost task: Id) returns (r: Completion<RunError>)
      requires InStep()
      modifies this`written, session`log, session`traj, session`audit, session`nextId, session.factory, session.tracker
      ensures InStep() && old(session.log) <= session.log
      ensures Filed(old(BooksNow()), BooksNow()) && Within(old(BooksNow()), BooksNow(), 0, 0, embeddings)
      ensures old(RestedBut(BooksNow(), {task}, {task})) ==> RestedBut(BooksNow(), {task}, {task})
      ensures old(written) <= written
    {
      var failed: bool, knowledge: seq<Id> := *, *;
      if failed {
        var error: RunError := *;
        return Threw(error);
      }
      for i := 0 to |knowledge|
        invariant InStep() && old(session.log) <= session.log
        invariant Filed(old(BooksNow()), BooksNow()) && Within(old(BooksNow()), BooksNow(), 0, 0, embeddings)
        invariant old(RestedBut(BooksNow(), {task}, {task})) ==> RestedBut(BooksNow(), {task}, {task})
        invariant old(written) <= written
      {
        ghost var b := BooksNow();
        session.EmitQuiet(KnowledgeIngested(knowledge[i]), c);
        assert BooksNow() == b;
        :- WriteRecord(knowledge[i], "knowledge", c, {task}, {task});
      }
      return Done;
    }

    /** LESSON_CREATED and then the lesson's record. */
    method RecordLesson(lesson: Lesson, c: Correlation) returns (r: Completion<RunError>)
      requires InStep() && RestedBut(BooksNow(), {lesson.taskId}, {lesson.taskId})
      requires c.taskId == Some(lesson.taskId) && Some(lesson.taskId) !in session.audit.lessonTasks
      requires lesson.taskId in attempts && LessonDue(attempts[lesson.taskId])
      modifies this`written, this`lessons, session`log, session`traj, session`audit, session`nextId, session.factory, session.tracker
      ensures InStep() && old(session.log) <= session.log
      ensures Within(old(BooksNow()), BooksNow(), 0, 0, embeddings)
      ensures r.Done? ==> RestedBut(BooksNow(), {lesson.taskId}, {})
      ensures lessons == old(lessons) + [lesson.lessonId]
      ensures old(session.log) + [Event(|old(session.log)| + 1, c, LessonCreated(lesson.lessonId))] <= session.log
      ensures r.Done? ==> written == old(written) + [lesson.recordId] && Shown(session.log, MemoryWritten(lesson.recordId, "lesson"), c)
    {
      ghost var b := BooksNow();
      lessons := lessons + [lesson.lessonId];
      session.EmitLesson(lesson.lessonId, c);
      LessonAdded(b, BooksNow(), lesson.taskId, renderInput);
      r := WriteRecord(lesson.recordId, "lesson", c, {lesson.taskId}, {});
    }

    /** The decision, the experience and whatever was read. */
    method FileRecords(task: Id, decisionId: Id, experienceId: Id, c: Correlation) returns (r: Completion<RunError>)
      requires InStep()
      modifies this`written, session`log, session`traj, session`audit, session`nextId, session.factory, session.tracker
      ensures InStep() && old(session.log) <= session.log
      ensures Filed(old(BooksNow()), BooksNow()) && Within(old(BooksNow()), BooksNow(), 0, 0, embeddings)
      ensures old(RestedBut(BooksNow(), {task}, {task})) ==> RestedBut(BooksNow(), {task}, {task})
      ensures r.Done? ==> old(written) + [decisionId, experienceId] <= written
      ensures r.Done? ==> Shown(session.log, MemoryWritten(decisionId, "decision"), c)
                          && Shown(session.log, MemoryWritten(experienceId, "experience"), c)
    {
      r := WriteRecord(decisionId, "decision", c, {task}, {task});
      if r.Threw? {
        return;
      }
      ghost var filed := session.log;
      r := FileFindings(task, experienceId, c);
      StillShown(filed, session.log, MemoryWritten(decisionId, "decision"), c);
    }

    /** The experience and whatever was read. */
    method FileFindings(task: Id, experienceId: Id, c: Correlation) returns (r: Completion<RunError>)
      requires InStep()
      modifies this`written, session`log, session`traj, session`audit, session`nextId, session.factory, session.tracker
      ensures InStep() && old(session.log) <= session.log
      ensures Filed(old(BooksNow()), BooksNow()) && Within(old(BooksNow()), BooksNow(), 0, 0, embeddings)
      ensures old(RestedBut(BooksNow(), {task}, {task})) ==> RestedBut(BooksNow(), {task}, {task})
      ensures r.Done? ==> old(written) + [experienceId] <= written
      ensures r.Done? ==> Shown(session.log, MemoryWritten(experienceId, "experience"), c)
    {
      r := WriteRecord(experienceId, "experience", c, {task}, {task});
      if r.Threw? {
        return;
      }
      ghost var filed := session.log;
      r := IngestKnowledge(c, task);
      StillShown(filed, session.log, MemoryWritten(experienceId, "experience"), c);
    }

    /** All records of an attempt, and its lesson if one is due. */
    method FileAttempt(task: Id, previous: seq<TaskAttempt>, attempt: TaskAttempt, decision: Decision, c: Correlation)
      returns (r: Completion<RunError>)
      requires InStep() && RestedBut(BooksNow(), {task}, {task})
      requires c.taskId == Some(task) && Some(task) !in session.audit.lessonTasks && attempt.action.taskId == task
      requires task in attempts && attempts[task] == previous + [attempt] && AllFailed(previous)
      modifies this`written, this`lessons, session`log, session`traj, session`audit, session`nextId, session.factory, session.tracker
      ensures InStep() && old(session.log) <= session.log
      ensures Within(old(BooksNow()), BooksNow(), 0, 0, embeddings)
      ensures r.Done? ==> RestedBut(BooksNow(), {task}, {})
    {
      ghost var b := BooksNow();
      var experienceId, learned := learner.Learn(attempt, previous);
      FreshIdsKeep(b, BooksNow(), task);
      :- FileRecords(task, decision.recordId, experienceId, c);
      if learned == [] {
        NoLessonDue(BooksNow(), task, {task});
        return Done;
      }
      r := RecordLesson(learned[0], c);
    }

    lemma FreshIdsKeep(b: Books, c: Books, task: Id)
      requires Agree(b, renderInput) && RestedBut(b, {task}, {task})
      requires c == b.(nextId := c.nextId) && b.nextId <= c.nextId
      requires LogOpen(b.audit)
      ensures Agree(c, renderInput) && RestedBut(c, {task}, {task})
    {
      CallsKeepCoherent(b, c, {task}, {task}, renderInput);
    }

    // ------------------------------------------------------------------ one attempt

    /** DECISION_CREATED, RETRY_STARTED for every attempt but the first, TOOL_SELECTED. */
    method SelectAction(previous: seq<TaskAttempt>, action: Action, decision: Decision)
      requires Wired() && session.Valid() && LogOpen(session.audit)
      requires action.retryOf.Some? <==> previous != []
      modifies session`log, session`traj, session`audit, session.factory, session.tracker
      ensures session.Valid() && session.audit == old(session.audit) && old(session.log) <= session.log
      ensures StepSelected(old(BooksNow()), BooksNow(), action, renderInput)
      ensures SelectionShown(session.log[|old(session.log)|..], previous, action, decision)
    {
      var c := Correlation(Some(action.taskId), Some(action.actionId));
      session.EmitQuiet(DecisionCreated(decision.decisionId, decision.summary), c);
      if action.retryOf.Some? && previous != [] {
        var last := previous[|previous| - 1].action;
        session.tracker.Increment(Retries);
        session.EmitRetry(action.retryOf.value, action.attempt,
                          last.toolName != action.toolName || last.input != action.input, c);
      }
      session.EmitToolSelected(action.toolName, action.intent, action.attempt, renderInput(action.input), c);
    }

    /** Selection and execution of one tool call, up to its observation or an error of the tool's own parser. */
    method TryAction(previous: seq<TaskAttempt>, action: Action, decision: Decision) returns (r: Result<Observation, RunError>)
      requires InStep() && Rested(BooksNow())
      requires action.retryOf.Some? <==> previous != []
      modifies session`log, session`traj, session`audit, session`nextId, session`observations, session.factory, session.tracker
      ensures InStep() && old(session.log) <= session.log
      ensures StepTried(old(BooksNow()), BooksNow(), action, if r.Ok? then Some(r.value) else None, renderInput)
      ensures r.Err? <==> executor.parserThrows(action.toolName, action.input)
      ensures session.observations == if r.Ok? then old(session.observations) + [r.value] else old(session.observations)
    {
      ghost var b := BooksNow();
      SelectAction(previous, action, decision);
      r := ExecuteAction(action, b);
      if r.Ok? {
        session.observations := session.observations + [r.value];
      }
    }

    method ExecuteAction(action: Action, ghost b: Books) returns (r: Result<Observation, RunError>)
      requires Wired() && session.Valid() && model.DelaysCapped() && LogOpen(session.audit)
      requires Agree(b, renderInput) && Rested(b) && StepSelected(b, BooksNow(), action, renderInput)
      modifies session`log, session`traj, session`audit, session`nextId, session.factory, session.tracker
      ensures InStep() && old(session.log) <= session.log
      ensures StepTried(b, BooksNow(), action, if r.Ok? then Some(r.value) else None, renderInput)
      ensures r.Err? <==> executor.parserThrows(action.toolName, action.input)
    {
      ghost var c := BooksNow();
      r := executor.Execute(action);
      SelectedThenExecuted(b, c, BooksNow(), action, if r.Ok? then Some(r.value) else None, renderInput);
    }

    /** The attempt's own evaluation, and its event. */
    method JudgeAction(previous: seq<TaskAttempt>, action: Action, observation: Observation, ghost b: Books)
      returns (r: Result<TaskAttempt, RunError>)
      requires InStep() && StepTried(b, BooksNow(), action, Some(observation), renderInput)
      modifies session`log, session`traj, session`audit, session`nextId, session.factory
      ensures r.Err? ==> InStep() && BooksNow() == old(BooksNow()).(nextId := session.nextId)
      ensures r.Ok? ==> r.value.action == action && r.value.observation == observation
      ensures r.Ok? ==> evaluator.Judges(Seen(previous + [r.value]), r.value.evaluation.verdict)
      ensures r.Ok? ==> Wired() && session.Valid() && model.DelaysCapped() && session.audit == old(session.audit)
      ensures r.Ok? ==> StepMade(b, BooksNow(), r.value, renderInput)
      ensures r.Ok? ==> session.log == old(session.log) + [Event(|old(session.log)| + 1,
                          Correlation(Some(action.taskId), Some(action.actionId)), EvaluationOf(r.value.evaluation))]
      ensures r.Ok? && evaluator.NeverSucceeds() ==> r.value.evaluation.verdict != Success
      ensures old(session.log) <= session.log && old(session.nextId) <= session.nextId
    {
      ghost var c := BooksNow();
      var seen := seq(|previous|, i requires 0 <= i < |previous| => previous[i].observation) + [observation];
      var evaluation := evaluator.Evaluate(seen);
      if evaluation.Err? {
        CallsKeepCoherent(c, BooksNow(), {}, {}, renderInput);
        return Err(evaluation.error);
      }
      var attempt := TaskAttempt(action, observation, evaluation.value);
      assert seen == Seen(previous + [attempt]);
      session.EmitEvaluation(JudgedOf(evaluation.value), evaluation.value.toolStatus,
                             Correlation(Some(action.taskId), Some(action.actionId)));
      TriedThenJudged(b, c, BooksNow(), attempt, renderInput);
      r := Ok(attempt);
    }

    /** One tool call with its verdict: a step is made, or an error leaves a step without a verdict. */
    method PerformAction(previous: seq<TaskAttempt>, action: Action, decision: Decision)
      returns (r: Result<TaskAttempt, RunError>)
      requires InStep() && Rested(BooksNow())
      requires action.retryOf.Some? <==> previous != []
      modifies session`log, session`traj, session`audit, session`nextId, session`observations, session.factory, session.tracker
      ensures Wired() && session.Valid() && model.DelaysCapped() && LogOpen(session.audit)
      ensures r.Err? ==> InStep() && Within(old(BooksNow()), BooksNow(), 0, 1, embeddings)
      ensures executor.parserThrows(action.toolName, action.input) ==>
                r.Err? && StepTried(old(BooksNow()), BooksNow(), action, None, renderInput)
      ensures r.Ok? ==> r.value.action == action && StepMade(old(BooksNow()), BooksNow(), r.value, renderInput)
      ensures r.Ok? ==> evaluator.Judges(Seen(previous + [r.value]), r.value.evaluation.verdict)
      ensures r.Ok? ==> session.observations == old(session.observations) + [r.value.observation]
      ensures r.Ok? && evaluator.NeverSucceeds() ==> r.value.evaluation.verdict != Success
      ensures old(session.log) <= session.log && old(session.nextId) <= session.nextId
    {
      ghost var b := BooksNow();
      var observation :- TryAction(previous, action, decision);
      r := JudgeAction(previous, action, observation, b);
    }

    // -------------------------------------------------------------- failure handling

    /** FAILURE_DETECTED, a revision from the model, STRATEGY_CHANGED if it changed, PLAN_UPDATED. */
    method HandleFailure(evaluation: EvaluationResult, c: Correlation) returns (r: Completion<RunError>)
      requires InStep() && Rested(BooksNow())
      modifies this`plan, model, session`log, session`traj, session`audit, session`nextId, session.factory, session.tracker
      ensures InStep() && old(session.log) <= session.log
      ensures Within(old(BooksNow()), BooksNow(), CallBound(model.options), 0, embeddings)
      ensures r.Done? ==> Rested(BooksNow())
      ensures r.Done? ==> old(plan).Some? && plan.Some?
                          && IsRevision(old(plan).value, plan.value, old(session.nextId), session.nextId)
      ensures r.Done? ==> RevisionShown(session.log, old(plan).value, plan.value)
      ensures r.Threw? ==> plan == old(plan)
      ensures old(session.log) + [Event(|old(session.log)| + 1, c, FailureOf(evaluation))] <= session.log
    {
      AnnounceFailure(evaluation, c);
      r := Replan();
    }

    /** The planner revises the current plan, and the revision replaces it. */
    method Replan() returns (r: Completion<RunError>)
      requires InStep() && Rested(BooksNow())
      modifies this`plan, model, session`log, session`traj, session`audit, session`nextId, session.factory, session.tracker
      ensures InStep() && old(session.log) <= session.log
      ensures Within(old(BooksNow()), BooksNow(), CallBound(model.options), 0, embeddings)
      ensures r.Done? ==> Rested(BooksNow())
      ensures r.Done? ==> old(plan).Some? && plan.Some?
                          && IsRevision(old(plan).value, plan.value, old(session.nextId), session.nextId)
      ensures r.Done? ==> RevisionShown(session.log, old(plan).value, plan.value)
      ensures r.Threw? ==> plan == old(plan)
    {
      ghost var b := BooksNow();
      CurrentPlan(b, renderInput);
      var previous := plan.value;
      var revised := ProposeRevision(previous);
      if revised.Err? {
        return Threw(revised.error);
      }
      AdoptRevision(previous, revised.value, b.nextId);
      r := Done;
    }

    method AnnounceFailure(evaluation: EvaluationResult, c: Correlation)
      requires InStep()
      modifies session`log, session`traj, session`audit, session.factory
      ensures InStep() && BooksNow() == old(BooksNow())
      ensures session.log == old(session.log) + [Event(|old(session.log)| + 1, c, FailureOf(evaluation))]
    {
      var gaps := Join(evaluation.gaps, "; ");
      session.EmitQuiet(FailureDetected(if gaps == "" then evaluation.summary else gaps,
                                        if evaluation.toolStatus == ToolError then ToolFailure else EvaluationFailure), c);
    }

    method ProposeRevision(previous: Plan) returns (r: Result<Plan, RunError>)
      requires InStep() && Rested(BooksNow()) && plan == Some(previous)
      modifies model, session`log, session`traj, session`audit, session`nextId, session.factory, session.tracker
      ensures InStep() && Rested(BooksNow()) && old(session.log) <= session.log
      ensures Within(old(BooksNow()), BooksNow(), CallBound(model.options), 0, embeddings)
      ensures r.Ok? ==> IsRevision(previous, r.value, old(session.nextId), session.nextId)
      ensures r.Ok? ==> forall x :: x in r.value.informedBy ==> x in PresentedIds(retrievals)
    {
      ghost var b := BooksNow();
      CurrentPlan(b, renderInput);
      r := planner.RevisePlan(retrievals, previous);
      CallsKeepCoherent(b, BooksNow(), {}, {}, renderInput);
    }

    method AdoptRevision(previous: Plan, revised: Plan, ghost first: Id)
      requires InStep() && Rested(BooksNow()) && plan == Some(previous) && first <= session.nextId
      requires PlanOk(previous, attempts, first) && IsRevision(previous, revised, first, session.nextId)
      requires forall x :: x in revised.informedBy ==> x in PresentedIds(retrievals)
      modifies this`plan, session`log, session`traj, session`audit, session.factory, session.tracker
      ensures InStep() && Rested(BooksNow()) && plan == Some(revised) && old(session.log) <= session.log
      ensures BooksNow() == Replanned(old(BooksNow()), revised, old(StrategyDiffers(plan, revised)), session.nextId)
      ensures RevisionShown(session.log, previous, revised)
    {
      ghost var b := BooksNow();
      AnnounceRevision(previous, revised);
      plan := Some(revised);
      RevisionKeeps(b, revised, first, revised.strategy.strategyId != previous.strategy.strategyId, renderInput);
    }

    method AnnounceRevision(previous: Plan, revised: Plan)
      requires Wired() && session.Valid() && LogOpen(session.audit) && plan == Some(previous)
      modifies session`log, session`traj, session`audit, session.factory, session.tracker
      ensures session.Valid() && old(session.log) <= session.log
      ensures BooksNow().(plan := Some(revised)) ==
              Replanned(old(BooksNow()), revised, StrategyDiffers(plan, revised), session.nextId)
      ensures RevisionShown(session.log, previous, revised)
    {
      if revised.strategy.strategyId != previous.strategy.strategyId {
        session.tracker.Increment(StrategyChanges);
        session.EmitStrategyChange(previous.strategy.strategyId, revised.strategy.strategyId,
                                   revised.strategy.changeReason.GetOr(revised.revisionReason.GetOr("")),
                                   revised.strategy.summary);
      }
      session.EmitPlan(PlanUpdated(revised.planId, previous.planId, revised.version,
                                   revised.revisionReason.GetOr("revised after failure"), |revised.tasks|, revised.informedBy));
    }

    // ------------------------------------------------------------------- the attempt

    method Attempt(task: PlanTask, previous: seq<TaskAttempt>, action: Action, decision: Decision) returns (r: Completion<RunError>)
      requires InStep() && Rested(BooksNow()) && plan.Some? && HasTask(plan.value, task.taskId)
      requires previous == Previous(attempts, task.taskId) && !Succeeded(previous) && task.taskId < session.nextId
      requires IsNextAction(action, decision, plan.value, task, previous)
      requires Asked(model.inner.model, action) && Remembered() && Grounded()
      modifies this`plan, this`attempts, this`history, this`written, this`lessons, model, session`log, session`traj, session`audit,
               session`nextId, session`observations, session.factory, session.tracker
      ensures InStep() && old(session.log) <= session.log
      ensures evaluator.NeverSucceeds() ==> OneMoreFailure(old(history), history)
      ensures UsageWithin(old(session.tracker.usage), session.tracker.usage, CallBound(model.options), 1, embeddings)
      ensures Goal() == old(Goal())
      ensures r.Done? ==> Rested(BooksNow())
      ensures executor.parserThrows(action.toolName, action.input) ==>
                r.Threw? && StepTried(old(BooksNow()), BooksNow(), action, None, renderInput)
      ensures Grounded() && (r.Done? ==> Remembered())
    {
      ghost var b := BooksNow();
      var judged := PerformAction(previous, action, decision);
      if judged.Err? {
        return Threw(judged.error);
      }
      r := Settle(task.taskId, previous, judged.value, decision, b);
    }

    /** A judged attempt is recorded, learnt from, and answered with a completed task or a new plan. */
    method Settle(task: Id, previous: seq<TaskAttempt>, attempt: TaskAttempt, decision: Decision, ghost b: Books)
      returns (r: Completion<RunError>)
      requires Wired() && session.Valid() && model.DelaysCapped() && LogOpen(session.audit)
      requires Agree(b, renderInput) && Rested(b) && StepMade(b, BooksNow(), attempt, renderInput)
      requires previous == Previous(b.attempts, task) && !Succeeded(previous) && task < b.nextId
      requires Continues(attempt, task, previous) && plan.Some? && HasTask(plan.value, task)
      requires Grounded() && Asked(model.inner.model, attempt.action) && attempts == b.attempts
      requires session.observations == Seen(history) + [attempt.observation]
      requires evaluator.Judges(Seen(previous + [attempt]), attempt.evaluation.verdict)
      modifies this`plan, this`attempts, this`history, this`written, this`lessons, model, session`log, session`traj, session`audit,
               session`nextId, session.factory, session.tracker
      ensures InStep() && old(session.log) <= session.log
      ensures Within(b, BooksNow(), CallBound(model.options), 1, embeddings)
      ensures r.Done? ==> Rested(BooksNow())
      ensures Grounded() && Remembered() && history == old(history) + [attempt]
    {
      StillGrounded(attempts, history, task, attempt);
      StillRemembered(Seen(history), history, attempt);
      RecordAttempt(task, previous, attempt, b);
      r := Conclude(task, previous, attempt, decision);
    }

    method RecordAttempt(task: Id, previous: seq<TaskAttempt>, attempt: TaskAttempt, ghost b: Books)
      requires Wired() && session.Valid() && model.DelaysCapped() && LogOpen(session.audit)
      requires Agree(b, renderInput) && Rested(b) && StepMade(b, BooksNow(), attempt, renderInput)
      requires previous == Previous(b.attempts, task) && !Succeeded(previous) && task < b.nextId
      requires Continues(attempt, task, previous)
      modifies this`attempts, this`history
      ensures InStep() && RestedBut(BooksNow(), {task}, {task})
      ensures attempts == old(attempts)[task := previous + [attempt]] && history == old(history) + [attempt]
      ensures AllFailed(previous) && Some(task) !in session.audit.lessonTasks
      ensures Within(b, BooksNow(), 0, 1, embeddings)
    {
      AttemptTaken(b, BooksNow(), task, attempt, renderInput, embeddings);
      attempts, history := attempts[task := previous + [attempt]], history + [attempt];
    }

    lemma StillGrounded(attempts: Attempts, history: seq<TaskAttempt>, task: Id, attempt: TaskAttempt)
      requires evaluator.AttemptsJudged(attempts) && AllAsked(model.inner.model, history) && Asked(model.inner.model, attempt.action)
      requires evaluator.Judges(Seen(Previous(attempts, task) + [attempt]), attempt.evaluation.verdict)
      ensures evaluator.AttemptsJudged(attempts[task := Previous(attempts, task) + [attempt]])
      ensures AllAsked(model.inner.model, history + [attempt])
    {
      evaluator.AttemptJudged(attempts, task, attempt);
      forall i | 0 <= i < |history|
        ensures Asked(model.inner.model, (history + [attempt])[i].action)
      {
        assert Asked(model.inner.model, history[i].action);
      }
    }

    /** The attempt is recorded and learnt from; then its task is completed, or the failure handled. */
    method Conclude(task: Id, previous: seq<TaskAttempt>, attempt: TaskAttempt, decision: Decision)
      returns (r: Completion<RunError>)
      requires InStep() && RestedBut(BooksNow(), {task}, {task}) && AllFailed(previous)
      requires task in attempts && attempts[task] == previous + [attempt] && attempt.action.taskId == task
      requires Some(task) !in session.audit.lessonTasks && plan.Some? && HasTask(plan.value, task)
      modifies this`plan, this`written, this`lessons, model, session`log, session`traj, session`audit, session`nextId,
               session.factory, session.tracker
      ensures InStep() && old(session.log) <= session.log
      ensures Within(old(BooksNow()), BooksNow(), CallBound(model.options), 0, embeddings)
      ensures r.Done? ==> Rested(BooksNow())
      ensures r.Done? && attempt.evaluation.verdict != Success ==>
                Shown(session.log, FailureOf(attempt.evaluation), Correlation(Some(task), Some(attempt.action.actionId)))
    {
      var c := Correlation(Some(task), Some(attempt.action.actionId));
      :- FileAttempt(task, previous, attempt, decision, c);
      if attempt.evaluation.verdict == Success {
        CompleteTask(task);
        return Done;
      }
      NothingToComplete(BooksNow(), task, {});
      ShownLast(session.log, FailureOf(attempt.evaluation), c);
      ghost var announced := session.log + [Event(|session.log| + 1, c, FailureOf(attempt.evaluation))];
      r := HandleFailure(attempt.evaluation, c);
      StillShown(announced, session.log, FailureOf(attempt.evaluation), c);
    }

    method CompleteTask(task: Id)
      requires InStep() && RestedBut(BooksNow(), {task}, {}) && plan.Some? && HasTask(plan.value, task)
      requires task in attempts && Succeeded(attempts[task])
      modifies this`plan
      ensures InStep() && Rested(BooksNow())
      ensures plan == Some(WithTaskStatus(old(plan).value, task, TaskCompleted))
    {
      ghost var b := BooksNow();
      Unfold(b, renderInput);
      UnfoldRest(b, {task}, {});
      TaskFinished(plan.value, attempts, session.nextId, task);
      plan := Some(WithTaskStatus(plan.value, task, TaskCompleted));
      PlanReplaced(b, plan.value, {}, {task}, renderInput);
    }

    // ------------------------------------------------------------------ termination

    /** The run is over: one terminal event, the last of the log, agrees with the status and the reason. */
    ghost predicate Ended()
      reads this, session, session.tracker, session.factory, model
    {
      && Wired() && session.Valid() && model.DelaysCapped()
      && Closed(session.log) && session.audit.terminals == 1 && session.audit.calls.open.None? && session.audit.calls.paired
      && Agree(Reopened(BooksNow()), renderInput)
      && Announces(session.traj.outcome, session.status, session.terminationReason)
    }

    method EmitTerminal(payload: Payload)
      requires InStep() && payload.IsTerminal()
      modifies session`log, session`traj, session`audit, session.factory
      ensures session.Valid() && Closed(session.log)
      ensures session.log == old(session.log) + [Event(|old(session.log)| + 1, NO_CORRELATION, payload)]
      ensures session.traj == old(session.traj).(outcome := ApplyOutcome(old(session.traj).outcome, payload))
      ensures session.audit == old(session.audit).(terminals := 1)
    {
      Summary(session.log, session.traj, session.audit);
      NoTerminalEvent(session.log);
      session.Emit(payload, NO_CORRELATION);
    }

    method Terminate(payload: Payload, status: RunStatus, reason: Reason)
      requires InStep() && payload.IsTerminal() && status != Created && status != Running
      requires Announces(ApplyOutcome(session.traj.outcome, payload), status, Some(reason))
      modifies session`log, session`traj, session`audit, session`status, session`terminationReason, session.factory
      ensures Goal() == old(Goal())
      ensures Ended() && session.status == status && session.terminationReason == Some(reason)
      ensures Reopened(BooksNow()) == old(BooksNow()).(traj := session.traj)
      ensures session.log == old(session.log) + [Event(|old(session.log)| + 1, NO_CORRELATION, payload)]
      ensures session.traj == old(session.traj).(outcome := session.traj.outcome)
    {
      ghost var b := BooksNow();
      EmitTerminal(payload);
      session.Finish(status, reason);
      OutcomeIsFree(b, Reopened(BooksNow()), renderInput);
    }

    method CompleteGoal(summary: string)
      requires InStep()
      modifies session`log, session`traj, session`audit, session`status, session`terminationReason, session.factory
      ensures Goal() == old(Goal())
      ensures Ended() && session.status == Completed && session.terminationReason == Some(Said(summary))
      ensures Reopened(BooksNow()) == old(BooksNow()).(traj := session.traj)
      ensures session.traj == old(session.traj).(outcome := session.traj.outcome)
      ensures session.log == old(session.log) + [Event(|old(session.log)| + 1, NO_CORRELATION,
                                                       GoalCompleted(summary, session.tracker.usage.iterations))]
    {
      Terminate(GoalCompleted(summary, session.tracker.usage.iterations), Completed, Said(summary));
    }

    // ---------------------------------------------------------------------- the start

    /** MEMORY_SEARCH_STARTED, MEMORY_RETRIEVED, MEMORY_PRESENTED around one search. */
    method RetrieveMemory(text: string) returns (r: Completion<RunError>)
      requires InStep() && retrievals == [] && plan.None?
      modifies this`retrievals, session`log, session`traj, session`audit, session`nextId, session.factory, session.tracker
      ensures InStep() && old(session.log) <= session.log
      ensures Within(old(BooksNow()), BooksNow(), 0, 0, embeddings)
      ensures session.traj.steps == old(session.traj.steps)
      ensures old(session.log) + [Event(|old(session.log)| + 1, NO_CORRELATION, MemorySearchStarted(old(session.nextId), text))]
              <= session.log
      ensures r.Done? ==> |retrievals| == 1 && retrievals[0].retrievalId == old(session.nextId)
      ensures r.Threw? ==> retrievals == []
    {
      var retrievalId := AnnounceSearch(text);
      CallEmbedding(EmbedQuery);
      var failed: bool, hits: seq<HitRef>, signals: seq<string>, suppressed: bool := *, *, *, *;
      if failed {
        var error: RunError := *;
        return Threw(error);
      }
      var result := RetrievalResult(retrievalId, hits, signals, suppressed);
      PublishRetrieval(result);
      r := Done;
    }

    method AnnounceSearch(text: string) returns (retrievalId: Id)
      requires InStep()
      modifies session`log, session`traj, session`audit, session`nextId, session.factory
      ensures InStep() && retrievalId == old(session.nextId)
      ensures BooksNow() == old(BooksNow()).(nextId := retrievalId + 1)
      ensures session.log == old(session.log) + [Event(|old(session.log)| + 1, NO_CORRELATION, MemorySearchStarted(retrievalId, text))]
    {
      ghost var b := BooksNow();
      retrievalId := session.NextId();
      CallsKeepCoherent(b, BooksNow(), {}, {}, renderInput);
      session.EmitQuiet(MemorySearchStarted(retrievalId, text), NO_CORRELATION);
    }

    method PublishRetrieval(result: RetrievalResult)
      requires InStep() && retrievals == [] && plan.None?
      modifies this`retrievals, session`log, session`traj, session`audit, session.factory, session.tracker
      ensures InStep() && old(session.log) <= session.log && retrievals == [result]
      ensures Within(old(BooksNow()), BooksNow(), 0, 0, embeddings)
      ensures session.traj.steps == old(session.traj.steps)
    {
      ghost var b := BooksNow();
      session.tracker.Increment(MemoryReads);
      session.EmitRetrieval(result.retrievalId, RecordIds(result.hits), ViolatedIds(result.hits), result.signalsUsed,
                            result.suppressed);
      retrievals := retrievals + [result];
      FirstRetrieval(b, BooksNow(), result, renderInput);
    }

    method CreateInitialPlan() returns (r: Completion<RunError>)
      requires InStep() && plan.None? && session.traj.steps == []
      modifies this`plan, model, session`log, session`traj, session`audit, session`nextId, session.factory, session.tracker
      ensures InStep() && old(session.log) <= session.log
      ensures Within(old(BooksNow()), BooksNow(), CallBound(model.options), 0, embeddings)
      ensures r.Done? ==> Rested(BooksNow()) && plan.Some? && PlanShown(session.log, plan.value)
    {
      ghost var first := session.nextId;
      var created := ProposePlan();
      if created.Err? {
        return Threw(created.error);
      }
      AdoptPlan(created.value, first);
      r := Done;
    }

    method ProposePlan() returns (r: Result<Plan, RunError>)
      requires InStep() && plan.None? && session.traj.steps == []
      modifies model, session`log, session`traj, session`audit, session`nextId, session.factory, session.tracker
      ensures InStep() && old(session.log) <= session.log && session.traj.steps == []
      ensures Within(old(BooksNow()), BooksNow(), CallBound(model.options), 0, embeddings)
      ensures r.Ok? ==> IsFirstPlan(r.value, old(session.nextId), session.nextId)
      ensures r.Ok? ==> forall x :: x in r.value.informedBy ==> x in PresentedIds(retrievals)
    {
      ghost var b := BooksNow();
      r := planner.CreatePlan(retrievals);
      CallsKeepCoherent(b, BooksNow(), {}, {}, renderInput);
    }

    method AdoptPlan(created: Plan, ghost first: Id)
      requires InStep() && plan.None? && session.traj.steps == [] && IsFirstPlan(created, first, session.nextId)
      requires forall x :: x in created.informedBy ==> x in PresentedIds(retrievals)
      modifies this`plan, session`log, session`traj, session`audit, session.factory
      ensures InStep() && Rested(BooksNow()) && plan == Some(created) && old(session.log) <= session.log
      ensures Within(old(BooksNow()), BooksNow(), 0, 0, embeddings)
      ensures PlanShown(session.log, created)
    {
      ghost var c := BooksNow();
      session.EmitPlan(PlanCreated(created.planId, created.version, created.strategy.strategyId, |created.tasks|, created.informedBy));
      plan := Some(created);
      FirstPlanKeeps(c, created, first, renderInput);
    }

    // ------------------------------------------------------------------- finish claims

    /** The evaluator judges the whole goal; its refusal is handled as a failed attempt is. */
    method VerifyFinishClaim(summary: string) returns (r: Completion<RunError>)
      requires InStep() && Rested(BooksNow()) && !session.IsFinished() && Remembered() && LastProposal() == Some(FinishGoal(summary))
      modifies this`plan, model, session`log, session`traj, session`audit, session`nextId, session`status,
               session`terminationReason, session.factory, session.tracker
      ensures Goal() == old(Goal())
      ensures UsageWithin(old(session.tracker.usage), session.tracker.usage, CallBound(model.options), 0, embeddings)
      ensures session.IsFinished() ==> r.Done? && Ended() && session.status == Completed && !evaluator.NeverSucceeds()
                                       && plan.Some? && SoundCompletion(plan.value, attempts, session.log) && Whole(BooksNow())
                                       && GoalMet()
      ensures !session.IsFinished() ==> InStep() && (r.Done? ==> Rested(BooksNow()) && ClaimRejected(|old(session.log)|))
    {
      var judged := JudgeClaim();
      if judged.Err? {
        return Threw(judged.error);
      }
      if judged.value.verdict == Success {
        AcceptClaim(summary);
        return Done;
      }
      r := RejectClaim(judged.value, |old(session.log)|);
    }

    /** A claim that was not confirmed is handled as a failure. */
    method RejectClaim(evaluation: EvaluationResult, ghost at: nat) returns (r: Completion<RunError>)
      requires InStep() && Rested(BooksNow()) && evaluation.verdict != Success
      requires evaluator.Judges(session.observations, evaluation.verdict)
      requires |session.log| == at + 1 && session.log[at] == Event(at + 1, NO_CORRELATION, EvaluationOf(evaluation))
      modifies this`plan, model, session`log, session`traj, session`audit, session`nextId, session.factory, session.tracker
      ensures InStep() && (r.Done? ==> Rested(BooksNow()))
      ensures Within(old(BooksNow()), BooksNow(), CallBound(model.options), 0, embeddings)
      ensures ClaimRejected(at)
    {
      ghost var judged := session.log;
      r := HandleFailure(evaluation, NO_CORRELATION);
      FollowedBy(judged, Event(at + 2, NO_CORRELATION, FailureOf(evaluation)), session.log);
    }

    lemma FollowedBy(before: seq<Event>, event: Event, after: seq<Event>)
      requires before != [] && before + [event] <= after
      ensures |after| > |before| && after[|before| - 1..|before| + 1] == [before[|before| - 1], event]
    {
      assert after[|before|] == (before + [event])[|before|];
      assert after[|before| - 1] == (before + [event])[|before| - 1];
    }

    /** From this place on the log has the evaluation of everything observed, no success, and then the failure it found. */
    ghost predicate ClaimRejected(at: nat)
      reads session
    {
      exists e: EvaluationResult ::
        && e.verdict != Success && evaluator.Judges(session.observations, e.verdict) && |session.log| >= at + 2
        && session.log[at..at + 2] == [Event(at + 1, NO_CORRELATION, EvaluationOf(e)), Event(at + 2, NO_CORRELATION, FailureOf(e))]
    }

    method JudgeClaim() returns (r: Result<EvaluationResult, RunError>)
      requires InStep() && Rested(BooksNow())
      modifies session`log, session`traj, session`audit, session`nextId, session.factory
      ensures Goal() == old(Goal())
      ensures InStep() && Rested(BooksNow())
      ensures r.Ok? ==> session.log == old(session.log) + [Event(|old(session.log)| + 1, NO_CORRELATION, EvaluationOf(r.value))]
      ensures r.Ok? ==> evaluator.Judges(session.observations, r.value.verdict)
      ensures r.Ok? && r.value.verdict == Success ==> !evaluator.NeverSucceeds()
    {
      ghost var b := BooksNow();
      r := evaluator.Evaluate(session.observations);
      CallsKeepCoherent(b, BooksNow(), {}, {}, renderInput);
      if r.Ok? {
        AnnounceVerdict(r.value);
      }
    }

    method AnnounceVerdict(evaluation: EvaluationResult)
      requires InStep() && Rested(BooksNow())
      modifies session`log, session`traj, session`audit, session.factory
      ensures InStep() && BooksNow() == old(BooksNow())
      ensures session.log == old(session.log) + [Event(|old(session.log)| + 1, NO_CORRELATION, EvaluationOf(evaluation))]
    {
      ClaimLeavesSteps(BooksNow(), JudgedOf(evaluation), renderInput);
      session.EmitEvaluation(JudgedOf(evaluation), evaluation.toolStatus, NO_CORRELATION);
    }

    method AcceptClaim(summary: string)
      requires InStep() && Rested(BooksNow()) && session.log != []
      requires var e := session.log[|session.log| - 1];
               e.payload.EvaluationCompleted? && e.payload.verdict == Success && e.correlation.actionId.None?
      requires evaluator.Judges(session.observations, Success) && Remembered() && LastProposal() == Some(FinishGoal(summary))
      modifies this`plan, session`log, session`traj, session`audit, session`status, session`terminationReason, session.factory
      ensures Goal() == old(Goal())
      ensures Ended() && session.status == Completed && plan.Some? && SoundCompletion(plan.value, attempts, session.log)
      ensures Whole(BooksNow()) && GoalMet()
    {
      evaluator.SuccessIsMet(session.observations);
      SkipRemaining();
      CompleteGoal(summary);
    }

    method SkipRemaining()
      requires InStep() && Rested(BooksNow())
      modifies this`plan
      ensures InStep() && Whole(BooksNow())
      ensures plan.Some? && forall t :: t in plan.value.tasks ==> CompletedTask(t, attempts) || t.status == Skipped
    {
      ghost var b := BooksNow();
      RestedIsWhole(b);
      CurrentPlan(b, renderInput);
      SkippedKeeps(b, renderInput);
      plan := Some(WithRemainingTasksSkipped(plan.value));
    }

    // ------------------------------------------------------------------------ the loop

    /** What holds once the loop has stopped the run itself. */
    ghost predicate StoppedByLoop()
      reads this, session, session.tracker, session.factory, model
    {
      && Ended() && Whole(BooksNow())
      && (session.status == Completed || session.status == GaveUp || session.status == LimitReached)
      && (session.status == Completed ==>
            !evaluator.NeverSucceeds() && plan.Some? && SoundCompletion(plan.value, attempts, session.log) && GoalMet())
      && (session.status == GaveUp ==> LastProposal() == Some(GiveUpGoal(SaidLast())))
    }

    /** The prose with which the run ended. */
    ghost function SaidLast(): string
      reads session
    {
      if session.terminationReason.Some? && session.terminationReason.value.Said? then session.terminationReason.value.text else ""
    }

    /**
     * A claim of the model, in its own words, that its evaluator confirmed on
     * everything the run observed, or a plan whose every task it confirmed on
     * what the attempts at that task observed.
     */
    ghost predicate GoalMet()
      requires Wired() && plan.Some?
      reads this, session, session.tracker
    {
      || (AllTasksCompleted(plan.value, attempts) && TasksMet())
      || (ClaimAccepted(session.log) && Remembered() && evaluator.Met(session.observations)
          && LastProposal() == Some(FinishGoal(SaidLast())))
    }

    ghost predicate TaskMet(task: Id)
      reads this`attempts
    {
      evaluator.Met(Seen(Previous(attempts, task)))
    }

    ghost predicate TasksMet()
      requires plan.Some?
      reads this
    {
      forall t: PlanTask {:trigger TaskMet(t.taskId)} :: t in plan.value.tasks ==> TaskMet(t.taskId)
    }

    /** One turn: the selector gives up, claims the goal is finished, or acts. */
    method Iterate(task: PlanTask) returns (r: Completion<RunError>)
      requires InStep() && Rested(BooksNow()) && !session.IsFinished() && plan.Some? && HasTask(plan.value, task.taskId)
      requires task.taskId < session.nextId && !Succeeded(Previous(attempts, task.taskId)) && Remembered() && Grounded()
      modifies this, model, session`log, session`traj, session`audit, session`nextId, session`observations, session`status,
               session`terminationReason, session.factory, session.tracker
      ensures Goal() == old(Goal()) && Grounded()
      ensures UsageWithin(old(session.tracker.usage), session.tracker.usage, 2 * CallBound(model.options), 1, embeddings)
      ensures session.IsFinished() ==> r.Done? && StoppedByLoop()
      ensures !session.IsFinished() ==> InStep() && (r.Done? ==> Rested(BooksNow()) && Remembered())
      ensures evaluator.NeverSucceeds() ==> OneMoreFailure(old(history), history)
    {
      var previous := Previous(attempts, task.taskId);
      ghost var b := BooksNow();
      var selection := selector.SelectNext(plan.value, task, previous);
      CallsKeepCoherent(b, BooksNow(), {}, {}, renderInput);
      if selection.Err? {
        return Threw(selection.error);
      }
      assert Proposed(selection.value);
      r := Follow(task, previous, selection.value);
    }

    /** The selection is the model's. */
    ghost predicate Proposed(selection: Selection)
      requires Wired()
      reads session.tracker
    {
      match selection
      case GaveUpOn(reason) => LastProposal() == Some(GiveUpGoal(reason))
      case ClaimFinished(summary) => LastProposal() == Some(FinishGoal(summary))
      case Act(action, _) => Asked(model.inner.model, action)
    }

    /** What was selected is done. */
    method Follow(task: PlanTask, previous: seq<TaskAttempt>, selection: Selection) returns (r: Completion<RunError>)
      requires InStep() && Rested(BooksNow()) && !session.IsFinished() && plan.Some? && HasTask(plan.value, task.taskId)
      requires task.taskId < session.nextId && !Succeeded(previous) && previous == Previous(attempts, task.taskId)
      requires Remembered() && Grounded() && Proposed(selection)
      requires selection.Act? ==> IsNextAction(selection.action, selection.decision, plan.value, task, previous)
      modifies this`plan, this`attempts, this`history, this`written, this`lessons, model, session`log, session`traj, session`audit,
               session`nextId, session`observations, session`status, session`terminationReason, session.factory, session.tracker
      ensures Goal() == old(Goal()) && Grounded()
      ensures UsageWithin(old(session.tracker.usage), session.tracker.usage, CallBound(model.options), 1, embeddings)
      ensures session.IsFinished() ==> r.Done? && StoppedByLoop()
      ensures !session.IsFinished() ==> InStep() && (r.Done? ==> Rested(BooksNow()) && Remembered())
      ensures evaluator.NeverSucceeds() ==> OneMoreFailure(old(history), history)
    {
      if selection.Act? {
        r := Attempt(task, previous, selection.action, selection.decision);
      } else {
        r := EndOrRevise(selection);
      }
    }

    /** The run gives up, or a claim is checked. */
    method EndOrRevise(selection: Selection) returns (r: Completion<RunError>)
      requires InStep() && Rested(BooksNow()) && !session.IsFinished() && Remembered()
      requires !selection.Act? && Proposed(selection)
      modifies this`plan, model, session`log, session`traj, session`audit, session`nextId, session`status,
               session`terminationReason, session.factory, session.tracker
      ensures Goal() == old(Goal())
      ensures UsageWithin(old(session.tracker.usage), session.tracker.usage, CallBound(model.options), 0, embeddings)
      ensures session.IsFinished() ==> r.Done? && StoppedByLoop()
      ensures !session.IsFinished() ==> InStep() && (r.Done? ==> Rested(BooksNow()))
    {
      match selection {
        case GaveUpOn(reason) =>
          GiveUp(reason);
          r := Done;
        case ClaimFinished(summary) =>
          r := VerifyFinishClaim(summary);
      }
    }

    method GiveUp(reason: string)
      requires InStep() && Rested(BooksNow()) && LastProposal() == Some(GiveUpGoal(reason))
      modifies session`log, session`traj, session`audit, session`status, session`terminationReason, session.factory
      ensures Goal() == old(Goal())
      ensures StoppedByLoop() && session.status == GaveUp && session.terminationReason == Some(Said(reason))
      ensures session.log == old(session.log) + [Event(|old(session.log)| + 1, NO_CORRELATION,
                                                       GoalFailed(reason, session.tracker.usage.iterations, GaveUpCause))]
    {
      RestedIsWhole(BooksNow());
      Terminate(GoalFailed(reason, session.tracker.usage.iterations, GaveUpCause), GaveUp, Said(reason));
    }

    method StopAtLimit(breach: LimitBreach)
      requires InStep() && Rested(BooksNow())
      modifies session`log, session`traj, session`audit, session`status, session`terminationReason, session.factory
      ensures Goal() == old(Goal())
      ensures StoppedByLoop() && session.status == LimitReached
      ensures session.terminationReason == Some(Limit(breach.limit, breach.value, breach.max))
      ensures session.log == old(session.log) + [Event(|old(session.log)| + 1, NO_CORRELATION,
                                                       RunLimitReached(breach.limit, breach.value, breach.max))]
    {
      RestedIsWhole(BooksNow());
      Terminate(RunLimitReached(breach.limit, breach.value, breach.max), LimitReached,
                Limit(breach.limit, breach.value, breach.max));
    }

    /** No task is left: every task of the plan is completed, so the goal is. */
    method CompletePlan()
      requires InStep() && Rested(BooksNow()) && plan.Some? && NextTask(plan.value).None?
      requires (evaluator.NeverSucceeds() ==> AllFailed(history)) && Grounded()
      modifies session`log, session`traj, session`audit, session`status, session`terminationReason, session.factory
      ensures Goal() == old(Goal())
      ensures StoppedByLoop() && session.status == Completed && AllTasksCompleted(plan.value, attempts)
      ensures session.terminationReason == Some(Said(PLAN_COMPLETED))
    {
      RestedIsWhole(BooksNow());
      CurrentPlan(BooksNow(), renderInput);
      NothingLeft(plan.value, attempts, session.nextId);
      AllMet();
      if evaluator.NeverSucceeds() {
        SomethingLeft(BooksNow(), renderInput);
        assert false;
      }
      CompleteGoal(PLAN_COMPLETED);
    }

    /** Each completed task was confirmed. */
    lemma AllMet()
      requires plan.Some? && AllTasksCompleted(plan.value, attempts) && evaluator.AttemptsJudged(attempts)
      ensures TasksMet()
    {
      forall t | t in plan.value.tasks
        ensures TaskMet(t.taskId)
      {
        assert CompletedTask(t, attempts);
        evaluator.SucceededIsMet(attempts, t.taskId);
      }
    }

    /** The task that is worked on next is marked in progress. */
    method StartTask(task: PlanTask)
      requires InStep() && Rested(BooksNow()) && plan.Some? && NextTask(plan.value) == Some(task)
      modifies this`plan, session.tracker
      ensures InStep() && Rested(BooksNow()) && plan.Some? && HasTask(plan.value, task.taskId)
      ensures task.taskId < session.nextId && !Succeeded(Previous(attempts, task.taskId))
      ensures session.tracker.usage == Bumped(old(session.tracker.usage), Iterations)
      ensures plan == if task.status == Pending then Some(WithTaskStatus(old(plan).value, task.taskId, InProgress)) else old(plan)
    {
      ghost var b := BooksNow();
      CurrentPlan(b, renderInput);
      PickedTask(plan.value, attempts, session.nextId, task);
      session.tracker.Increment(Iterations);
      IterationKeeps(b, BooksNow());
      if task.status == Pending {
        MarkInProgress(task.taskId);
      }
    }

    method MarkInProgress(task: Id)
      requires InStep() && Rested(BooksNow()) && plan.Some? && HasTask(plan.value, task)
      requires PlanOk(plan.value, attempts, session.nextId) && PlanExact(plan.value, attempts, {})
      requires !Succeeded(Previous(attempts, task))
      modifies this`plan
      ensures InStep() && Rested(BooksNow()) && plan.Some? && HasTask(plan.value, task)
      ensures plan == Some(WithTaskStatus(old(plan).value, task, InProgress))
    {
      TaskStarted(plan.value, attempts, session.nextId, task);
      ghost var c := BooksNow();
      plan := Some(WithTaskStatus(plan.value, task, InProgress));
      PlanReplaced(c, plan.value, {}, {}, renderInput);
    }

    lemma IterationKeeps(b: Books, c: Books)
      requires Agree(b, renderInput) && Rested(b) && c == b.(usage := Bumped(b.usage, Iterations))
      ensures Agree(c, renderInput) && Rested(c)
    {
      Unfold(b, renderInput);
      Unfold(c, renderInput);
      UnfoldRest(b, {}, {});
      UnfoldRest(c, {}, {});
    }

    /** Every limit is checked before every turn; the loop ends the run or an error leaves it. */
    method Loop() returns (r: Completion<RunError>)
      requires InStep() && Rested(BooksNow()) && !session.IsFinished()
      requires WithinLimits(session.tracker.usage, session.tracker.limits, model.options, embeddings)
      requires (evaluator.NeverSucceeds() ==> AllFailed(history)) && Remembered() && Grounded()
      modifies this, model, session`log, session`traj, session`audit, session`nextId, session`observations, session`status,
               session`terminationReason, session.factory, session.tracker
      ensures Goal() == old(Goal()) && Grounded()
      ensures WithinLimits(session.tracker.usage, session.tracker.limits, model.options, embeddings)
      ensures r.Done? <==> session.IsFinished()
      ensures r.Done? ==> StoppedByLoop()
      ensures r.Threw? ==> InStep()
    {
      while !session.IsFinished()
        invariant WithinLimits(session.tracker.usage, session.tracker.limits, model.options, embeddings)
        invariant session.IsFinished() ==> StoppedByLoop()
        invariant !session.IsFinished() ==> InStep() && Rested(BooksNow()) && Remembered()
        invariant evaluator.NeverSucceeds() ==> AllFailed(history)
        invariant Goal() == old(Goal()) && Grounded()
        decreases if session.IsFinished() then 0 else 1 + Max(0, session.tracker.limits.maxIterations - session.tracker.usage.iterations)
      {
        r := Turn();
        if r.Threw? {
          return;
        }
      }
      return Done;
    }

    /** One pass of the loop body: stop at a limit, or take a turn. */
    method Turn() returns (r: Completion<RunError>)
      requires InStep() && Rested(BooksNow()) && !session.IsFinished()
      requires WithinLimits(session.tracker.usage, session.tracker.limits, model.options, embeddings)
      requires (evaluator.NeverSucceeds() ==> AllFailed(history)) && Remembered() && Grounded()
      modifies this, model, session`log, session`traj, session`audit, session`nextId, session`observations, session`status,
               session`terminationReason, session.factory, session.tracker
      ensures Goal() == old(Goal()) && Grounded()
      ensures WithinLimits(session.tracker.usage, session.tracker.limits, model.options, embeddings)
      ensures !session.IsFinished() ==> old(session.tracker.usage).iterations < session.tracker.limits.maxIterations
                                        && session.tracker.usage.iterations == old(session.tracker.usage).iterations + 1
      ensures session.IsFinished() ==> r.Done? && StoppedByLoop()
      ensures !session.IsFinished() ==> InStep() && (r.Done? ==> Rested(BooksNow()) && Remembered())
      ensures evaluator.NeverSucceeds() ==> AllFailed(history)
    {
      var elapsedMs: int := *;
      var breach := session.tracker.Breach(elapsedMs);
      if breach.Some? {
        StopAtLimit(breach.value);
        return Done;
      }
      r := UnlimitedTurn(elapsedMs);
    }

    /** A turn of the loop in which no limit was reached. */
    method UnlimitedTurn(elapsedMs: int) returns (r: Completion<RunError>)
      requires InStep() && Rested(BooksNow()) && !session.IsFinished()
      requires forall c :: c in Checks(session.tracker.limits, session.tracker.usage, elapsedMs) ==> c.value < c.max
      requires (evaluator.NeverSucceeds() ==> AllFailed(history)) && Remembered() && Grounded()
      modifies this, model, session`log, session`traj, session`audit, session`nextId, session`observations, session`status,
               session`terminationReason, session.factory, session.tracker
      ensures Goal() == old(Goal()) && Grounded()
      ensures WithinLimits(session.tracker.usage, session.tracker.limits, model.options, embeddings)
      ensures !session.IsFinished() ==> session.tracker.usage.iterations == old(session.tracker.usage).iterations + 1
      ensures session.IsFinished() ==> r.Done? && StoppedByLoop()
      ensures !session.IsFinished() ==> InStep() && (r.Done? ==> Rested(BooksNow()) && Remembered())
      ensures evaluator.NeverSucceeds() ==> AllFailed(history)
    {
      ghost var u, before := session.tracker.usage, history;
      CurrentPlan(BooksNow(), renderInput);
      BelowLimits(session.tracker.limits, u, model.options, elapsedMs, embeddings);
      var task := NextTask(plan.value);
      if task.None? {
        CompletePlan();
        return Done;
      }
      StartTask(task.value);
      r := Iterate(task.value.(status := InProgress));
      TurnStaysWithin(session.tracker.limits, u, session.tracker.usage, model.options, elapsedMs, embeddings);
      if evaluator.NeverSucceeds() {
        StillNoSuccess(before, history);
      }
    }

    // ------------------------------------------------------------------------- the run

    /** Retrieve, plan, loop; the first error ends all three. */
    method Phases() returns (r: Completion<RunError>)
      requires InStep() && Grounded() && !session.IsFinished() && retrievals == [] && plan.None? && history == []
      requires session.observations == []
      requires session.tracker.usage == ZERO_USAGE && session.traj.steps == []
      modifies this, model, session`log, session`traj, session`audit, session`nextId, session`observations, session`status,
               session`terminationReason, session.factory, session.tracker
      ensures Goal() == old(Goal()) && Grounded()
      ensures WithinLimits(session.tracker.usage, session.tracker.limits, model.options, embeddings)
      ensures r.Done? <==> session.IsFinished()
      ensures r.Done? ==> StoppedByLoop()
      ensures r.Threw? ==> InStep()
    {
      r := Prepare();
      if r.Threw? {
        return;
      }
      r := Loop();
    }

    /** A search for the goal's own statement, and the first plan. */
    method Prepare() returns (r: Completion<RunError>)
      requires InStep() && retrievals == [] && plan.None? && session.traj.steps == []
      modifies this`retrievals, this`plan, model, session`log, session`traj, session`audit, session`nextId, session.factory,
               session.tracker
      ensures InStep()
      ensures old(session.log) + [Event(|old(session.log)| + 1, NO_CORRELATION,
                                        MemorySearchStarted(old(session.nextId), session.goalStatement))] <= session.log
      ensures Within(old(BooksNow()), BooksNow(), CallBound(model.options), 0, embeddings)
      ensures r.Done? ==> Rested(BooksNow())
    {
      r := RetrieveMemory(session.goalStatement);
      if r.Threw? {
        return;
      }
      r := CreateInitialPlan();
    }

    /** What is left for an error that came out of a phase: a failed run with the error's message. */
    method Fail(error: RunError)
      requires InStep()
      modifies session`log, session`traj, session`audit, session`status, session`terminationReason, session.factory
      ensures Goal() == old(Goal())
      ensures Ended() && session.status == FailedStatus
      ensures session.terminationReason == Some(Said(DescribeUnrecoverable(error)))
      ensures session.log == old(session.log) + [Event(|old(session.log)| + 1, NO_CORRELATION,
                GoalFailed(DescribeUnrecoverable(error), session.tracker.usage.iterations, Unrecoverable))]
    {
      var reason := DescribeUnrecoverable(error);
      Terminate(GoalFailed(reason, session.tracker.usage.iterations, Unrecoverable), FailedStatus, Said(reason));
    }

    /**
     * The whole run, for every behaviour of the model, the tools, the sandbox,
     * the memory and the evaluator: it ends, within its limits, and its own log
     * says what it did.
     */
    method Run()
      requires InStep() && session.status == Created && session.log == [] && session.tracker.usage == ZERO_USAGE
      requires session.traj == EMPTY_TRAJECTORY && retrievals == [] && plan.None? && history == []
      requires session.observations == [] && Grounded()
      modifies this, model, session`log, session`traj, session`audit, session`nextId, session`observations, session`status,
               session`terminationReason, session.factory, session.tracker
      ensures session.IsFinished() && Closed(session.log) && Numbered(session.log)
      ensures session.Valid() && session.traj == Project(session.log) && session.audit == AuditOf(session.log)
      ensures WithinLimits(session.tracker.usage, session.tracker.limits, model.options, embeddings) && model.DelaysCapped()
      ensures Announces(Project(session.log).outcome, session.status, session.terminationReason)
      ensures Project(session.log).outcome.goalStatement == Some(session.goalStatement)
      ensures InSync(session.tracker.usage, Project(session.log).tally)
      ensures StepsShow(Project(session.log).steps, history, renderInput)
      ensures Coherent(Reopened(BooksNow()).(traj := Project(session.log)), renderInput)
      ensures AuditOf(session.log).calls.paired && AuditOf(session.log).calls.open.None?
      ensures plan.Some? ==> plan.value.version == 1 + AuditOf(session.log).planUpdates
      ensures LessonsOk(AuditOf(session.log).lessonTasks, attempts)
      ensures session.status != FailedStatus ==> Whole(BooksNow().(traj := Project(session.log)))
      ensures UnobservedEndsRun(Project(session.log).steps, history, session.status)
      ensures session.status == Completed ==> plan.Some? && SoundCompletion(plan.value, attempts, session.log)
      ensures session.status == Completed ==> !evaluator.NeverSucceeds()
      ensures session.status == Completed ==> GoalMet()
      ensures session.status == GaveUp ==> LastProposal() == Some(GiveUpGoal(SaidLast()))
      ensures Wired() && Grounded()
    {
      session.MarkRunning();
      Receive();
      var r := Phases();
      if r.Threw? {
        Fail(r.error);
      }
      Summary(session.log, session.traj, session.audit);
      Unfold(Reopened(BooksNow()), renderInput);
      UnobservedIsLast(session.traj.steps, history, renderInput);
    }

    /**
     * Folding the finished run's log back gives the run itself: its counters, its
     * attempts as steps, its retrievals with what was presented, and how it ended.
     */
    method RunAndReplay() returns (trajectory: Trajectory)
      requires InStep() && session.status == Created && session.log == [] && session.tracker.usage == ZERO_USAGE
      requires session.traj == EMPTY_TRAJECTORY && retrievals == [] && plan.None? && history == []
      requires session.observations == [] && Grounded()
      modifies this, model, session`log, session`traj, session`audit, session`nextId, session`observations, session`status,
               session`terminationReason, session.factory, session.tracker
      ensures session.IsFinished() && trajectory == WithPresentations(Project(session.log))
      ensures InSync(session.tracker.usage, trajectory.tally) && session.tracker.usage.toolCalls == |trajectory.steps|
      ensures StepsShow(trajectory.steps, history, renderInput)
      ensures Announces(trajectory.outcome, session.status, session.terminationReason)
      ensures trajectory.outcome.goalStatement == Some(session.goalStatement)
      ensures forall x :: x in trajectory.memory.cited ==> x in PresentedIds(retrievals)
      ensures plan.Some? ==> forall x :: x in plan.value.informedBy ==> x in trajectory.memory.cited
      ensures |trajectory.memory.retrievals| == |retrievals| && forall i :: 0 <= i < |retrievals| ==>
                trajectory.memory.retrievals[i] ==
                ViewOf(retrievals[i]).(presented := RecordIds(retrievals[i].hits), violated := ViolatedIds(retrievals[i].hits))
    {
      Run();
      RetrievalsReplayed(Project(session.log), retrievals);
      trajectory := TrajectoryFromEvents(session.log);
    }

    method Receive()
      requires InStep() && session.traj == EMPTY_TRAJECTORY
      modifies session`log, session`traj, session`audit, session.factory
      ensures InStep() && session.traj.steps == [] && Goal() == Some(session.goalStatement)
    {
      ghost var b := BooksNow();
      session.Emit(GoalReceived(session.goalStatement), NO_CORRELATION);
      OutcomeIsFree(b, BooksNow(), renderInput);
    }
  }

  lemma BelowLimits(l: Limits, u: Usage, o: Resilience, elapsedMs: int, embeddings: bool)
    requires forall c :: c in Checks(l, u, elapsedMs) ==> c.value < c.max
    ensures WithinLimits(u, l, o, embeddings)
    ensures u.iterations < l.maxIterations && u.toolCalls < l.maxToolCalls && u.modelCalls < l.maxModelCalls
    ensures u.inputTokens + u.outputTokens < l.maxTotalTokens && elapsedMs < l.maxDurationMs
  {
    var checks := Checks(l, u, elapsedMs);
    assert checks[0] in checks && checks[1] in checks && checks[2] in checks && checks[3] in checks && checks[4] in checks;
  }

  /** One turn, begun below the limits, cannot cross them. */
  lemma TurnStaysWithin(l: Limits, u: Usage, v: Usage, o: Resilience, elapsedMs: int, embeddings: bool)
    requires forall c :: c in Checks(l, u, elapsedMs) ==> c.value < c.max
    requires UsageWithin(Bumped(u, Iterations), v, 2 * CallBound(o), 1, embeddings)
    ensures WithinLimits(v, l, o, embeddings)
  {
    BelowLimits(l, u, o, elapsedMs, embeddings);
  }

  lemma StillNoSuccess(before: seq<TaskAttempt>, after: seq<TaskAttempt>)
    requires AllFailed(before) && OneMoreFailure(before, after)
    ensures AllFailed(after)
  {
    if after != before {
      assert forall i :: 0 <= i < |before| ==> after[i] == after[..|before|][i];
    }
  }

  /**
   * The bounds that hold at every moment. A logical model call makes at most
   * `CallBound` inner calls; a turn makes at most two logical calls after a
   * check, and the first plan makes one before any check.
   */
  predicate WithinLimits(u: Usage, l: Limits, o: Resilience, embeddings: bool) {
    && u.iterations <= Max(0, l.maxIterations)
    && u.toolCalls <= Max(0, l.maxToolCalls)
    && (!embeddings ==> u.modelCalls <= Max(CallBound(o), l.maxModelCalls - 1 + 2 * CallBound(o)))
  }

  predicate UsageWithin(u: Usage, v: Usage, calls: nat, tools: nat, embeddings: bool) {
    && v.iterations == u.iterations && u.toolCalls <= v.toolCalls <= u.toolCalls + tools
    && u.modelCalls <= v.modelCalls && (!embeddings ==> v.modelCalls <= u.modelCalls + calls)
  }

  /** A call that was never observed is the last of its run, and the run failed. */
  ghost predicate UnobservedEndsRun(steps: seq<Step>, history: seq<TaskAttempt>, status: RunStatus) {
    forall i :: 0 <= i < |steps| && steps[i].observed.None? ==> i == |history| == |steps| - 1 && status == FailedStatus
  }

  lemma UnobservedIsLast(steps: seq<Step>, history: seq<TaskAttempt>, renderInput: Json -> string)
    requires StepsShow(steps, history, renderInput)
    ensures forall i :: 0 <= i < |steps| && steps[i].observed.None? ==> i == |history| == |steps| - 1
  {
  }

  predicate Closed(log: seq<Event>) {
    && log != [] && log[|log| - 1].payload.IsTerminal()
    && forall i :: 0 <= i < |log| - 1 ==> !log[i].payload.IsTerminal()
  }

  /** The books with the terminal event taken off again. */
  function Reopened(b: Books): Books {
    b.(audit := b.audit.(terminals := 0))
  }

  /** How the trajectory reports a final status; giving up is reported as a failure. */
  function Reported(status: RunStatus): Option<FinalStatus> {
    match status
    case Completed => Some(CompletedRun)
    case GaveUp => Some(FailedRun)
    case FailedStatus => Some(FailedRun)
    case LimitReached => Some(LimitedRun)
    case _ => None
  }

  /** The trajectory's final status and summary are the session's. */
  predicate Announces(o: Outcome, status: RunStatus, reason: Option<Reason>) {
    reason.Some? && o.finalSummary == reason && o.finalStatus == Reported(status) != None
  }
}
