// src/agent/runtime/trajectory.ts: folding an event log into steps, counters and outcome.

module Trajectories {
  import opened Support
  import opened Events

  datatype Observed = Observed(summary: string, status: ToolStatus)
  datatype Judged = Judged(evaluationId: Id, verdict: Verdict, checksPassed: nat, checksTotal: nat,
                           gaps: nat, evaluatorName: Option<string>)

  /** `observed` and `judged` group the optional fields that one event fills in together. */
  datatype Step = Step(index: nat, taskId: Option<Id>, actionId: Option<Id>, toolName: string, intent: string,
                       attempt: nat, inputSummary: string, observed: Option<Observed>, judged: Option<Judged>)

  datatype RetrievalView = RetrievalView(retrievalId: Id, recordIds: seq<Id>, signalsUsed: seq<string>,
                                         suppressed: bool, presented: seq<Id>, violated: seq<Id>)
  datatype Presentation = Presentation(presented: seq<Id>, violated: seq<Id>)

  datatype FinalStatus = CompletedRun | FailedRun | LimitedRun

  /** Why a run stopped: prose, or the limit that was reached (the sources print its three numbers). */
  datatype Reason = Said(text: string) | Limit(limit: LimitName, value: int, max: int)

  /** The fields of `RunTrajectory`, grouped by the events that feed them. */
  datatype Trajectory = Trajectory(outcome: Outcome, memory: MemoryUse, steps: seq<Step>, tally: Tally)
  datatype Outcome = Outcome(goalStatement: Option<string>, finalStatus: Option<FinalStatus>, finalSummary: Option<Reason>)
  datatype MemoryUse = MemoryUse(retrievals: seq<RetrievalView>, presentedBy: map<Id, Presentation>, cited: seq<Id>)
  datatype Tally = Tally(retries: nat, strategyChanges: nat, memoryWrites: nat, modelCalls: nat, modelFailures: nat,
                         inputTokens: int, outputTokens: int, latencyMs: int)

  const EMPTY_TRAJECTORY :=
    Trajectory(Outcome(None, None, None), MemoryUse([], map[], []), [], Tally(0, 0, 0, 0, 0, 0, 0, 0))

  /** Insertion into a JavaScript `Set`, which keeps first-insertion order. */
  function AddAll(known: seq<Id>, ids: seq<Id>): (r: seq<Id>)
    ensures forall x :: x in r <==> x in known || x in ids
    decreases ids
  {
    if ids == [] then known
    else if ids[0] in known then AddAll(known, ids[1..])
    else AddAll(known + [ids[0]], ids[1..])
  }

  /** What is known stays in front, and nothing is repeated. */
  lemma {:induction false} AddedOnce(known: seq<Id>, ids: seq<Id>)
    requires forall i, j :: 0 <= i < j < |known| ==> known[i] != known[j]
    ensures var r := AddAll(known, ids);
            known <= r && forall i, j :: 0 <= i < j < |r| ==> r[i] != r[j]
    decreases ids
  {
    if ids != [] {
      AddedOnce(if ids[0] in known then known else known + [ids[0]], ids[1..]);
    }
  }

  /** The last step of the given action, searching from the end. */
  function StepFor(steps: seq<Step>, actionId: Option<Id>): (r: Option<nat>)
    ensures r.Some? ==>
              && r.value < |steps| && actionId.Some? && steps[r.value].actionId == actionId
              && forall k :: r.value < k < |steps| ==> steps[k].actionId != actionId
    ensures r.None? && actionId.Some? ==> forall k :: 0 <= k < |steps| ==> steps[k].actionId != actionId
  {
    if actionId.None? || steps == [] then None
    else if steps[|steps| - 1].actionId == actionId then Some(|steps| - 1)
    else StepFor(steps[..|steps| - 1], actionId)
  }

  function Observe(steps: seq<Step>, actionId: Option<Id>, o: Observed): seq<Step> {
    var at := StepFor(steps, actionId);
    if at.None? then steps else steps[at.value := steps[at.value].(observed := Some(o))]
  }

  /** An evaluation falls back to the newest step, and never overwrites an earlier verdict. */
  function Judge(steps: seq<Step>, actionId: Option<Id>, j: Judged): seq<Step> {
    var found := StepFor(steps, actionId);
    var at := if found.Some? then found.value else |steps| - 1;
    if at < 0 || steps[at].judged.Some? then steps
    else steps[at := steps[at].(judged := Some(j))]
  }

  // What one event contributes to each group of fields.

  function ApplyOutcome(o: Outcome, payload: Payload): Outcome {
    match payload
    case GoalReceived(statement) => o.(goalStatement := Some(statement))
    case GoalCompleted(summary, _) => o.(finalStatus := Some(CompletedRun), finalSummary := Some(Said(summary)))
    case GoalFailed(reason, _, _) => o.(finalStatus := Some(FailedRun), finalSummary := Some(Said(reason)))
    case RunLimitReached(limit, value, max) =>
      o.(finalStatus := Some(LimitedRun), finalSummary := Some(Limit(limit, value, max)))
    case _ => o
  }

  function ApplyMemory(m: MemoryUse, payload: Payload): MemoryUse {
    match payload
    case MemoryRetrieved(id, ids, signals, suppressed) =>
      m.(retrievals := m.retrievals + [RetrievalView(id, ids, signals, suppressed, [], [])])
    case MemoryPresented(id, ids, violated) => m.(presentedBy := m.presentedBy[id := Presentation(ids, violated)])
    case PlanCreated(_, _, _, _, informedBy) => m.(cited := AddAll(m.cited, informedBy))
    case PlanUpdated(_, _, _, _, _, informedBy) => m.(cited := AddAll(m.cited, informedBy))
    case _ => m
  }

  function ApplySteps(steps: seq<Step>, c: Correlation, payload: Payload): seq<Step> {
    match payload
    case ToolSelected(toolName, intent, attempt, input) =>
      steps + [Step(|steps|, c.taskId, c.actionId, toolName, intent, attempt, input, None, None)]
    case ToolCompleted(_, summary) => Observe(steps, c.actionId, Observed(summary, ToolOk))
    case ToolFailed(_, message) => Observe(steps, c.actionId, Observed(message, ToolError))
    case EvaluationCompleted(id, verdict, passed, total, gaps, _, name) =>
      Judge(steps, c.actionId, Judged(id, verdict, passed, total, gaps, if name == "" then None else Some(name)))
    case _ => steps
  }

  function ApplyTally(t: Tally, payload: Payload): Tally {
    match payload
    case RetryStarted(_, _, _) => t.(retries := t.retries + 1)
    case StrategyChanged(_, _, _, _) => t.(strategyChanges := t.strategyChanges + 1)
    case MemoryWritten(_, _) => t.(memoryWrites := t.memoryWrites + 1)
    case ModelCallCompleted(_, _, _, input, output, latency) =>
      t.(modelCalls := t.modelCalls + 1, inputTokens := t.inputTokens + input,
         outputTokens := t.outputTokens + output, latencyMs := t.latencyMs + latency)
    case ModelCallFailed(_, _, _, latency) =>
      t.(modelCalls := t.modelCalls + 1, modelFailures := t.modelFailures + 1, latencyMs := t.latencyMs + latency)
    case _ => t
  }

  function Apply(t: Trajectory, event: Event): Trajectory {
    Trajectory(ApplyOutcome(t.outcome, event.payload),
               ApplyMemory(t.memory, event.payload),
               ApplySteps(t.steps, event.correlation, event.payload),
               ApplyTally(t.tally, event.payload))
  }

  function Project(events: seq<Event>): Trajectory {
    if events == [] then EMPTY_TRAJECTORY
    else Apply(Project(events[..|events| - 1]), events[|events| - 1])
  }

  lemma ProjectAppend(events: seq<Event>, event: Event)
    ensures Project(events + [event]) == Apply(Project(events), event)
  {
    assert (events + [event])[..|events|] == events;
  }

  /** Each retrieval is returned together with what was presented under its id. */
  function Joined(r: RetrievalView, presentedBy: map<Id, Presentation>): RetrievalView {
    if r.retrievalId in presentedBy
    then r.(presented := presentedBy[r.retrievalId].presented, violated := presentedBy[r.retrievalId].violated)
    else r
  }

  function WithPresentations(t: Trajectory): Trajectory {
    var retrievals := t.memory.retrievals;
    t.(memory := t.memory.(retrievals := seq(|retrievals|, i requires 0 <= i < |retrievals| =>
                             Joined(retrievals[i], t.memory.presentedBy))))
  }

  /** One pass over the events, updating the counters and the fields of existing steps. */
  method TrajectoryFromEvents(events: seq<Event>) returns (trajectory: Trajectory)
    ensures trajectory == WithPresentations(Project(events))
  {
    var outcome, memory := EMPTY_TRAJECTORY.outcome, EMPTY_TRAJECTORY.memory;
    var steps: seq<Step>, tally := [], EMPTY_TRAJECTORY.tally;
    for i := 0 to |events|
      invariant Trajectory(outcome, memory, steps, tally) == Project(events[..i])
    {
      assert events[..i + 1] == events[..i] + [events[i]];
      ProjectAppend(events[..i], events[i]);
      var payload := events[i].payload;
      steps := TakeStep(steps, events[i].correlation, payload);
      tally := TakeTally(tally, payload);
      outcome, memory := ApplyOutcome(outcome, payload), ApplyMemory(memory, payload);
    }
    assert events[..|events|] == events;
    trajectory := WithPresentations(Trajectory(outcome, memory, steps, tally));
  }

  /** The step cases of the loop: a selection pushes a step, the others fill in an existing one. */
  method TakeStep(before: seq<Step>, c: Correlation, payload: Payload) returns (steps: seq<Step>)
    ensures steps == ApplySteps(before, c, payload)
  {
    steps := before;
    match payload {
      case ToolSelected(toolName, intent, attempt, input) =>
        steps := steps + [Step(|steps|, c.taskId, c.actionId, toolName, intent, attempt, input, None, None)];
      case ToolCompleted(_, summary) =>
        var step := StepFor(steps, c.actionId);
        if step.Some? {
          steps := steps[step.value := steps[step.value].(observed := Some(Observed(summary, ToolOk)))];
        }
      case ToolFailed(_, message) =>
        var step := StepFor(steps, c.actionId);
        if step.Some? {
          steps := steps[step.value := steps[step.value].(observed := Some(Observed(message, ToolError)))];
        }
      case EvaluationCompleted(id, verdict, passed, total, gaps, _, name) =>
        var found := StepFor(steps, c.actionId);
        var at := if found.Some? then found.value else |steps| - 1;
        if at >= 0 && steps[at].judged.None? {
          var j := Judged(id, verdict, passed, total, gaps, if name == "" then None else Some(name));
          steps := steps[at := steps[at].(judged := Some(j))];
        }
      case _ =>
    }
  }

  /** The counting cases of the loop. */
  method TakeTally(before: Tally, payload: Payload) returns (t: Tally)
    ensures t == ApplyTally(before, payload)
  {
    t := before;
    match payload {
      case RetryStarted(_, _, _) => t := t.(retries := t.retries + 1);
      case StrategyChanged(_, _, _, _) => t := t.(strategyChanges := t.strategyChanges + 1);
      case MemoryWritten(_, _) => t := t.(memoryWrites := t.memoryWrites + 1);
      case ModelCallCompleted(_, _, _, input, output, latency) =>
        t := t.(modelCalls := t.modelCalls + 1, inputTokens := t.inputTokens + input);
        t := t.(outputTokens := t.outputTokens + output, latencyMs := t.latencyMs + latency);
      case ModelCallFailed(_, _, _, latency) =>
        t := t.(modelCalls := t.modelCalls + 1, modelFailures := t.modelFailures + 1);
        t := t.(latencyMs := t.latencyMs + latency);
      case _ =>
    }
  }
}
