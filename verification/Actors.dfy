// src/agent/action-selector.ts, src/agent/executor.ts and src/agent/learner.ts:
// the components that propose, execute and learn for the runtime.

module Actors {
  import opened Support
  import opened Events
  import opened Trajectories
  import opened Sessions
  import opened Json
  import opened Models
  import opened Plans
  import opened Planning
  import opened Evaluation
  import opened RunInvariant

  datatype Decision = Decision(decisionId: Id, recordId: Id, taskId: Id, actionId: Id, summary: string)
  datatype Selection = Act(action: Action, decision: Decision) | ClaimFinished(summary: string) | GaveUpOn(reason: string)

  /** The selection, or the error, is what the model's answer says. */
  predicate Selects(answer: Result<Answer, ModelError>, r: Result<Selection, RunError>) {
    if answer.Err? then r == Err(RunError(answer.error.message, []))
    else
      r.Ok? &&
      match answer.value.proposal
      case FinishGoal(summary) => r.value == ClaimFinished(summary)
      case GiveUpGoal(reason) => r.value == GaveUpOn(reason)
      case CallTool(toolName, input, rationale) =>
        r.value.Act? && r.value.action.toolName == toolName && r.value.action.input == input && r.value.action.intent == rationale
  }

  class ModelActionSelector {
    const model: ResilientModelProvider

    constructor (model: ResilientModelProvider)
      ensures this.model == model
    {
      this.model := model;
    }

    method SelectNext(plan: Plan, task: PlanTask, previous: seq<TaskAttempt>) returns (r: Result<Selection, RunError>)
      requires model.inner.session.Valid() && model.inner.session.audit.calls.open.None? && model.DelaysCapped()
      modifies model, model.inner.session`log, model.inner.session`traj, model.inner.session`audit,
               model.inner.session`nextId, model.inner.session.factory, model.inner.session.tracker
      ensures model.inner.session.Valid() && model.DelaysCapped()
      ensures LogicalCall(old(LedgerOf(model.inner.session)), LedgerOf(model.inner.session), SelectAction, model.options)
      ensures model.inner.session.traj == old(model.inner.session.traj).(tally := model.inner.session.traj.tally)
      ensures model.inner.session.audit == old(model.inner.session.audit).(calls := model.inner.session.audit.calls)
      ensures old(model.inner.session.log) <= model.inner.session.log
      ensures old(model.inner.session.nextId) <= model.inner.session.nextId
      ensures r.Ok? && r.value.Act? ==> IsNextAction(r.value.action, r.value.decision, plan, task, previous)
      ensures Selects(model.LastAnswer(), r)
    {
      var answer := model.RequestToolAction();
      if answer.Err? {
        return Err(OfModel(answer.error));
      }
      match answer.value {
        case FinishGoal(summary) => r := Ok(ClaimFinished(summary));
        case GiveUpGoal(reason) => r := Ok(GaveUpOn(reason));
        case CallTool(toolName, input, rationale) =>
          var action, decision := ToAction(plan, task, previous, toolName, input, rationale);
          r := Ok(Act(action, decision));
      }
    }

    method ToAction(plan: Plan, task: PlanTask, previous: seq<TaskAttempt>, toolName: string, input: Json, rationale: string)
      returns (action: Action, decision: Decision)
      modifies model.inner.session`nextId
      ensures IsNextAction(action, decision, plan, task, previous)
      ensures action.toolName == toolName && action.input == input && action.intent == rationale
      ensures decision.summary == "Use " + toolName
      ensures old(model.inner.session.nextId) <= action.actionId < decision.decisionId < decision.recordId < model.inner.session.nextId
    {
      var session := model.inner.session;
      var actionId := session.NextId();
      var decisionId := session.NextId();
      var recordId := session.NextId();
      decision := Decision(decisionId, recordId, task.taskId, actionId, "Use " + toolName);
      var retryOf := if previous == [] then None else Some(previous[|previous| - 1].action.actionId);
      action := Action(actionId, task.taskId, plan.planId, decisionId, toolName, input, |previous| + 1, retryOf, rationale);
    }
  }

  /** The action continues the task's numbering, names the attempt it retries, and carries its decision. */
  predicate IsNextAction(action: Action, decision: Decision, plan: Plan, task: PlanTask, previous: seq<TaskAttempt>) {
    && action.taskId == task.taskId == decision.taskId && action.planId == plan.planId
    && action.decisionId == decision.decisionId && decision.actionId == action.actionId
    && action.attempt == |previous| + 1
    && action.retryOf == if previous == [] then None else Some(previous[|previous| - 1].action.actionId)
  }

  /** The event that reports how a tool's execution ended. */
  predicate ReportsCall(e: Event, action: Action) {
    && (e.payload.ToolCompleted? || e.payload.ToolFailed?) && e.payload.toolName == action.toolName
    && e.correlation == Correlation(Some(action.taskId), Some(action.actionId))
  }

  class ToolExecutor {
    const session: RunSession
    /** Whether the parser of the tool of this name throws on this input; no parser of the built-in tools does. */
    const parserThrows: (string, Json) -> bool

    constructor (session: RunSession, parserThrows: (string, Json) -> bool)
      ensures this.session == session && this.parserThrows == parserThrows
    {
      this.session, this.parserThrows := session, parserThrows;
    }

    /**
     * One tool call is counted and announced. It is reported, as the last event, if
     * and only if the tool's input parser does not throw; the tool may emit its own
     * activity before that. Where the parser throws, nothing follows the announcement.
     */
    method Execute(action: Action) returns (r: Result<Observation, RunError>)
      requires session.Valid() && session.audit.calls.open.None?
      modifies session`log, session`traj, session`audit, session`nextId, session.factory, session.tracker
      ensures session.Valid()
      ensures session.tracker.usage == Bumped(old(session.tracker.usage), ToolCalls)
      ensures r.Err? <==> parserThrows(action.toolName, action.input)
      ensures r.Ok? ==> session.log != [] && ReportsCall(session.log[|session.log| - 1], action)
      ensures r.Err? ==> session.log == old(session.log) + [Event(|old(session.log)| + 1,
                           Correlation(Some(action.taskId), Some(action.actionId)), ToolStarted(action.toolName))]
      ensures r.Ok? ==> session.traj == old(session.traj).(
                steps := Observe(old(session.traj).steps, Some(action.actionId), ObservedOf(r.value)))
      ensures r.Err? ==> session.traj == old(session.traj) && session.nextId == old(session.nextId)
      ensures session.audit == old(session.audit)
      ensures old(session.log) <= session.log && old(session.nextId) <= session.nextId
      ensures r.Ok? ==> r.value.actionId == action.actionId && r.value.toolResult.toolName == action.toolName
    {
      var c := Correlation(Some(action.taskId), Some(action.actionId));
      session.EmitQuiet(ToolStarted(action.toolName), c);
      session.tracker.Increment(ToolCalls);
      var result :- InvokeTool(action.toolName, action.input, c);
      var id := session.NextId();
      var observation := Observation(id, action.actionId, result, Summarise(result));
      if result.status == ToolOk {
        session.Emit(ToolCompleted(action.toolName, observation.summary), c);
      } else {
        session.Emit(ToolFailed(action.toolName, result.error), c);
      }
      r := Ok(observation);
    }

    /** Unknown tools, refused inputs and failures of the execution are results; `parseInput` stands outside the `try`. */
    method InvokeTool(toolName: string, input: Json, c: Correlation) returns (r: Result<ToolResult, RunError>)
      requires session.Valid() && session.audit.calls.open.None?
      modifies session`log, session`traj, session`audit, session.factory
      ensures session.Valid() && session.traj == old(session.traj) && session.audit == old(session.audit)
      ensures old(session.log) <= session.log
      ensures r.Err? <==> parserThrows(toolName, input)
      ensures r.Ok? ==> r.value.toolName == toolName && r.value.status != NoTool
      ensures r.Err? ==> session.log == old(session.log)
    {
      if parserThrows(toolName, input) {
        var error: RunError := *;
        return Err(error);
      }
      var activity: seq<string> := *;
      for i := 0 to |activity|
        invariant session.Valid() && session.traj == old(session.traj) && session.audit == old(session.audit)
        invariant old(session.log) <= session.log
      {
        session.EmitQuiet(ToolActivity(activity[i]), c);
      }
      var ok: bool, output: string, error: string, status: Option<real> := *, *, *, *;
      r := Ok(ToolResult(toolName, if ok then ToolOk else ToolError, output, error, status));
    }
  }

  /** A registered tool whose parser throws: the call is counted and announced, and that is all. */
  method UnreportedCall() returns (session: RunSession, r: Result<Observation, RunError>)
    ensures fresh(session) && r.Err? && session.tracker.usage.toolCalls == 1
    ensures |session.log| == 1 && session.log[0].payload == ToolStarted("custom")
  {
    session := new RunSession("goal", Limits(1, 1, 1, 1, 1));
    var executor := new ToolExecutor(session, (name: string, input: Json) => name == "custom");
    r := executor.Execute(Action(0, 1, 2, 3, "custom", JNull, 1, None, "try"));
  }

  function Summarise(result: ToolResult): (text: string)
    ensures result.status == ToolOk ==> text == result.toolName + " returned ok"
    ensures result.status != ToolOk ==> result.toolName + " failed: " <= text
  {
    if result.status == ToolOk then result.toolName + " returned ok" else result.toolName + " failed: " + result.error
  }

  datatype Lesson = Lesson(lessonId: Id, recordId: Id, taskId: Id)

  function FailedBefore(previous: seq<TaskAttempt>): (r: seq<TaskAttempt>)
    ensures r == [] <==> forall i :: 0 <= i < |previous| ==> previous[i].evaluation.verdict == Success
  {
    if previous == [] then []
    else
      var before, last := FailedBefore(previous[..|previous| - 1]), previous[|previous| - 1];
      if last.evaluation.verdict != Success then before + [last] else before
  }

  class OutcomeLearner {
    const session: RunSession

    constructor (session: RunSession)
      ensures this.session == session
    {
      this.session := session;
    }

    /** An experience always; a lesson when a failed attempt came before this success. */
    method Learn(attempt: TaskAttempt, previous: seq<TaskAttempt>) returns (experienceId: Id, lessons: seq<Lesson>)
      modifies session`nextId
      ensures old(session.nextId) <= session.nextId
      ensures |lessons| == if attempt.evaluation.verdict == Success && FailedBefore(previous) != [] then 1 else 0
      ensures forall l :: l in lessons ==> l.taskId == attempt.action.taskId
    {
      experienceId := session.NextId();
      lessons := [];
      if attempt.evaluation.verdict == Success && FailedBefore(previous) != [] {
        var recordId := session.NextId();
        var lessonId := session.NextId();
        lessons := [Lesson(lessonId, recordId, attempt.action.taskId)];
      }
    }
  }

  /** Either the deterministic evaluator, or any other implementation of the interface. */
  class RunEvaluator {
    const session: RunSession
    const deterministic: Option<DeterministicEvaluator>

    constructor (session: RunSession, deterministic: Option<DeterministicEvaluator>)
      requires deterministic.Some? ==> deterministic.value.session == session
      ensures this.session == session && this.deterministic == deterministic
    {
      this.session, this.deterministic := session, deterministic;
    }

    predicate Wired() {
      deterministic.Some? ==> deterministic.value.session == session
    }

    /** The evaluator can never report success. */
    predicate NeverSucceeds() {
      deterministic.Some? &&
      !HasMechanicalCriterion(deterministic.value.structured, deterministic.value.prose, deterministic.value.number)
    }

    /** With the deterministic evaluator: some answers of the sandbox make this the right verdict on these observations. */
    ghost predicate Judges(observations: seq<Observation>, v: Verdict) {
      deterministic.Some? ==>
        exists sandbox: nat -> Option<World> :: deterministic.value.Decided(observations, sandbox, v)
    }

    lemma Judged(observations: seq<Observation>, sandbox: nat -> Option<World>, v: Verdict)
      requires deterministic.Some? && deterministic.value.Decided(observations, sandbox, v)
      ensures Judges(observations, v)
    {
    }

    /** With the deterministic evaluator: the goal has criteria, and every one of them held on these observations. */
    ghost predicate Met(observations: seq<Observation>) {
      deterministic.Some? ==>
        exists sandbox: nat -> Option<World> :: deterministic.value.AllHold(observations, sandbox)
    }

    lemma SuccessIsMet(observations: seq<Observation>)
      ensures Judges(observations, Success) <==> Met(observations)
    {
      if deterministic.Some? {
        forall sandbox: nat -> Option<World>
          ensures deterministic.value.Decided(observations, sandbox, Success) <==> deterministic.value.AllHold(observations, sandbox)
        {
          deterministic.value.SuccessMeansAllHold(observations, sandbox);
        }
      }
    }

    /** The verdict on an attempt was made from what its task's attempts had observed by then. */
    ghost predicate JudgedAt(s: seq<TaskAttempt>, k: nat)
      requires k < |s|
    {
      Judges(Seen(s[..k + 1]), s[k].evaluation.verdict)
    }

    ghost predicate AttemptsJudged(attempts: Attempts) {
      forall t, k: nat {:trigger JudgedAt(attempts[t], k)} :: t in attempts && k < |attempts[t]| ==> JudgedAt(attempts[t], k)
    }

    lemma AttemptJudged(attempts: Attempts, task: Id, a: TaskAttempt)
      requires AttemptsJudged(attempts) && Judges(Seen(Previous(attempts, task) + [a]), a.evaluation.verdict)
      ensures AttemptsJudged(attempts[task := Previous(attempts, task) + [a]])
    {
      var before := Previous(attempts, task);
      var after := before + [a];
      forall k: nat | k < |after|
        ensures JudgedAt(after, k)
      {
        if k < |before| {
          assert JudgedAt(attempts[task], k);
          assert after[..k + 1] == before[..k + 1];
        } else {
          assert after[..k + 1] == after;
        }
      }
    }

    /** A task whose last attempt succeeded was met by what its attempts observed. */
    lemma SucceededIsMet(attempts: Attempts, task: Id)
      requires AttemptsJudged(attempts) && Succeeded(Previous(attempts, task))
      ensures Met(Seen(Previous(attempts, task)))
    {
      var s := attempts[task];
      assert JudgedAt(s, |s| - 1);
      assert s[..|s|] == s;
      SuccessIsMet(Seen(s));
    }

    method Evaluate(observations: seq<Observation>) returns (r: Result<EvaluationResult, RunError>)
      requires Wired()
      modifies session`nextId
      ensures old(session.nextId) <= session.nextId
      ensures r.Ok? ==> Judges(observations, r.value.verdict)
      ensures r.Ok? && NeverSucceeds() ==> r.value.verdict == Inconclusive
    {
      if deterministic.Some? {
        var sandbox: nat -> Option<World> := *;
        var result := deterministic.value.Evaluate(observations, sandbox);
        if result.None? {
          return Err(RunError("environment unavailable", []));
        }
        InconclusiveIffNoCriterion(deterministic.value, observations, sandbox, result.value.verdict);
        Judged(observations, sandbox, result.value.verdict);
        r := Ok(result.value);
      } else {
        r := *;
      }
    }
  }
}
