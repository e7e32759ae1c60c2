// The bookkeeping of one run as plain values: what the session, its log and
// the runtime's own fields must agree on at every moment, and why each kind of
// step keeps that agreement. AgentRuntime.dfy runs the loop against it.

module RunInvariant {
  import opened Support
  import opened Events
  import opened Trajectories
  import opened Sessions
  import opened Json
  import opened Evaluation
  import opened Models
  import opened Plans
  import opened Planning

  datatype Action = Action(actionId: Id, taskId: Id, planId: Id, decisionId: Id, toolName: string, input: Json,
                           attempt: nat, retryOf: Option<Id>, intent: string)
  datatype TaskAttempt = TaskAttempt(action: Action, observation: Observation, evaluation: EvaluationResult)

  type Attempts = map<Id, seq<TaskAttempt>>

  // ------------------------------------------------------------------ attempts

  function Previous(attempts: Attempts, task: Id): seq<TaskAttempt> {
    if task in attempts then attempts[task] else []
  }

  /** What these attempts observed, in order. */
  function Seen(s: seq<TaskAttempt>): (r: seq<Observation>)
    ensures |r| == |s| && forall i :: 0 <= i < |s| ==> r[i] == s[i].observation
  {
    seq(|s|, i requires 0 <= i < |s| => s[i].observation)
  }

  lemma StillRemembered(observations: seq<Observation>, s: seq<TaskAttempt>, a: TaskAttempt)
    requires observations == Seen(s)
    ensures observations + [a.observation] == Seen(s + [a])
  {
  }

  /** The model asked for exactly this tool call. */
  ghost predicate Asked(model: Model, a: Action) {
    exists n: nat :: model(n).Ok? && model(n).value.proposal == CallTool(a.toolName, a.input, a.intent)
  }

  ghost predicate AllAsked(model: Model, history: seq<TaskAttempt>) {
    forall i {:trigger Asked(model, history[i].action)} :: 0 <= i < |history| ==> Asked(model, history[i].action)
  }

  predicate Succeeded(s: seq<TaskAttempt>) {
    s != [] && s[|s| - 1].evaluation.verdict == Success
  }

  /** The attempts at one task: numbered from 1, each retrying the one before, and only the last may have succeeded. */
  ghost predicate WellNumbered(task: Id, s: seq<TaskAttempt>) {
    && s != []
    && forall i :: 0 <= i < |s| ==>
         && s[i].action.taskId == task
         && s[i].action.attempt == i + 1
         && s[i].action.retryOf == (if i == 0 then None else Some(s[i - 1].action.actionId))
         && (s[i].evaluation.verdict == Success ==> i == |s| - 1)
  }

  /** The attempts of a run in the order they were made, grouped by task. */
  function Grouped(history: seq<TaskAttempt>): Attempts {
    if history == [] then map[]
    else
      var before, last := Grouped(history[..|history| - 1]), history[|history| - 1];
      before[last.action.taskId := Previous(before, last.action.taskId) + [last]]
  }

  ghost predicate AttemptsOk(attempts: Attempts, history: seq<TaskAttempt>) {
    && attempts == Grouped(history)
    && forall t :: t in attempts ==> WellNumbered(t, attempts[t])
  }

  /** The next attempt at a task continues its numbering. */
  ghost predicate Continues(attempt: TaskAttempt, task: Id, previous: seq<TaskAttempt>) {
    && attempt.action.taskId == task
    && attempt.action.attempt == |previous| + 1
    && attempt.action.retryOf == (if previous == [] then None else Some(previous[|previous| - 1].action.actionId))
  }

  lemma AttemptAdded(attempts: Attempts, history: seq<TaskAttempt>, task: Id, attempt: TaskAttempt)
    requires AttemptsOk(attempts, history)
    requires Continues(attempt, task, Previous(attempts, task)) && !Succeeded(Previous(attempts, task))
    ensures AttemptsOk(attempts[task := Previous(attempts, task) + [attempt]], history + [attempt])
  {
    assert (history + [attempt])[..|history|] == history;
    var before := Previous(attempts, task);
    var after := before + [attempt];
    assert before != [] ==> WellNumbered(task, before);
    forall i | 0 <= i < |before|
      ensures after[i] == before[i] && before[i].evaluation.verdict != Success
    {
    }
    assert WellNumbered(task, after);
  }

  /** The places of all attempts: task and position in that task's list. */
  ghost function Places(attempts: Attempts): set<(Id, int)> {
    set t, i | t in attempts && 0 <= i < |attempts[t]| :: (t, i)
  }

  ghost function TotalAttempts(attempts: Attempts): nat {
    |Places(attempts)|
  }

  lemma OneMoreAttempt(attempts: Attempts, task: Id, a: TaskAttempt)
    ensures TotalAttempts(attempts[task := Previous(attempts, task) + [a]]) == TotalAttempts(attempts) + 1
  {
    var before := Previous(attempts, task);
    var after := attempts[task := before + [a]];
    var place := (task, |before|);
    assert place !in Places(attempts);
    forall p: (Id, int)
      ensures p in Places(after) <==> p in Places(attempts) + {place}
    {
      if p.0 != task {
        assert p.0 in after <==> p.0 in attempts;
      }
    }
    assert Places(after) == Places(attempts) + {place};
  }

  /** Every attempt of the run is in its task's list, once, and nothing else is. */
  lemma {:induction false} AttemptsAreTheHistory(history: seq<TaskAttempt>)
    ensures TotalAttempts(Grouped(history)) == |history|
    ensures forall t :: t in Grouped(history) ==> Grouped(history)[t] != []
  {
    if history == [] {
      assert Places(map[]) == {};
    } else {
      var init, last := history[..|history| - 1], history[|history| - 1];
      AttemptsAreTheHistory(init);
      OneMoreAttempt(Grouped(init), last.action.taskId, last);
    }
  }

  // ---------------------------------------------------------------------- steps

  function PassedChecks(checks: seq<Check>): nat {
    if checks == [] then 0
    else PassedChecks(checks[..|checks| - 1]) + if checks[|checks| - 1].passed then 1 else 0
  }

  lemma {:induction false} PassedAreCounted(checks: seq<Check>)
    ensures PassedChecks(checks) == |set i | 0 <= i < |checks| && checks[i].passed|
  {
    if checks != [] {
      var n := |checks| - 1;
      PassedAreCounted(checks[..n]);
      var before := set i | 0 <= i < n && checks[..n][i].passed;
      assert (set i | 0 <= i < |checks| && checks[i].passed) == if checks[n].passed then before + {n} else before;
    }
  }

  function JudgedOf(e: EvaluationResult): Judged {
    Judged(e.evaluationId, e.verdict, PassedChecks(e.checks), |e.checks|, |e.gaps|,
           if e.evaluatorName == "" then None else Some(e.evaluatorName))
  }

  function ObservedOf(o: Observation): Observed {
    if o.toolResult.status == ToolOk then Observed(o.summary, ToolOk) else Observed(o.toolResult.error, ToolError)
  }

  /** The step that the trajectory must show for an attempt: its own tool call with its own verdict. */
  function StepOf(a: TaskAttempt, index: nat, renderInput: Json -> string): Step {
    Step(index, Some(a.action.taskId), Some(a.action.actionId), a.action.toolName, a.action.intent, a.action.attempt,
         renderInput(a.action.input), Some(ObservedOf(a.observation)), Some(JudgedOf(a.evaluation)))
  }

  /**
   * One step per finished attempt, in order; at most one more, without a verdict,
   * for an attempt that an error cut short.
   */
  ghost predicate StepsShow(steps: seq<Step>, history: seq<TaskAttempt>, renderInput: Json -> string) {
    && |history| <= |steps| <= |history| + 1
    && (|steps| == |history| + 1 ==> steps[|history|].judged.None?)
    && forall i :: 0 <= i < |history| ==> steps[i] == StepOf(history[i], i, renderInput)
  }

  // ----------------------------------------------------------------------- plan

  predicate HasTask(plan: Plan, id: Id) {
    exists i :: 0 <= i < |plan.tasks| && plan.tasks[i].taskId == id
  }

  /** A task is completed in the plan only if its last attempt succeeded. */
  ghost predicate TaskOk(t: PlanTask, attempts: Attempts, nextId: Id) {
    && t.taskId < nextId && t.dependsOn == []
    && t.status != TaskFailed
    && (t.status == TaskCompleted ==> Succeeded(Previous(attempts, t.taskId)))
  }

  ghost predicate PlanOk(plan: Plan, attempts: Attempts, nextId: Id) {
    && plan.tasks != [] && plan.strategy.strategyId < nextId
    && (forall i :: 0 <= i < |plan.tasks| ==> TaskOk(plan.tasks[i], attempts, nextId))
    && (forall t :: t in attempts ==> t < nextId)
  }

  /** Conversely, outside the exempted tasks, every success is in the plan and every copy of its task is completed; none is skipped. */
  ghost predicate PlanExact(plan: Plan, attempts: Attempts, exempt: set<Id>) {
    && (forall i :: 0 <= i < |plan.tasks| ==> plan.tasks[i].status != Skipped)
    && (forall i :: 0 <= i < |plan.tasks| && plan.tasks[i].taskId !in exempt && plan.tasks[i].status != TaskCompleted ==>
          !Succeeded(Previous(attempts, plan.tasks[i].taskId)))
    && (forall t :: t in attempts && t !in exempt && Succeeded(attempts[t]) ==> CompletedIn(plan.tasks, t))
  }

  // -------------------------------------------------------------------- lessons

  /** A lesson is due for a task that succeeded after failing. */
  predicate LessonDue(s: seq<TaskAttempt>) {
    |s| >= 2 && Succeeded(s)
  }

  /** At most one lesson per task, and only where one is due. */
  ghost predicate LessonsOk(lessonTasks: seq<Option<Id>>, attempts: Attempts) {
    && (forall i, j :: 0 <= i < j < |lessonTasks| ==> lessonTasks[i] != lessonTasks[j])
    && (forall i :: 0 <= i < |lessonTasks| ==>
          lessonTasks[i].Some? && lessonTasks[i].value in attempts && LessonDue(attempts[lessonTasks[i].value]))
  }

  ghost predicate LessonsComplete(lessonTasks: seq<Option<Id>>, attempts: Attempts, exempt: set<Id>) {
    forall t :: t in attempts && t !in exempt && LessonDue(attempts[t]) ==> Some(t) in lessonTasks
  }

  // ------------------------------------------------------------------ retrievals

  function ViewOf(r: RetrievalResult): RetrievalView {
    RetrievalView(r.retrievalId, RecordIds(r.hits), r.signalsUsed, r.suppressed, [], [])
  }

  function ViolatedIds(hits: seq<HitRef>): (r: seq<Id>)
    ensures forall x :: x in r ==> x in RecordIds(hits)
    ensures forall x :: x in r <==> exists h :: h in hits && h.violated && h.recordId == x
  {
    if hits == [] then []
    else
      var before := ViolatedIds(hits[..|hits| - 1]);
      assert RecordIds(hits[..|hits| - 1]) <= RecordIds(hits);
      assert hits[|hits| - 1].recordId == RecordIds(hits)[|hits| - 1];
      if hits[|hits| - 1].violated then before + [hits[|hits| - 1].recordId] else before
  }

  function PresentationOf(r: RetrievalResult): Presentation {
    Presentation(RecordIds(r.hits), ViolatedIds(r.hits))
  }

  predicate PresentedAs(m: MemoryUse, r: RetrievalResult) {
    r.retrievalId in m.presentedBy && m.presentedBy[r.retrievalId] == PresentationOf(r)
  }

  ghost predicate MemoryShown(m: MemoryUse, retrievals: seq<RetrievalResult>) {
    && |m.retrievals| == |retrievals|
    && (forall i :: 0 <= i < |retrievals| ==> m.retrievals[i] == ViewOf(retrievals[i]))
    && (forall i :: 0 <= i < |retrievals| ==> PresentedAs(m, retrievals[i]))
    && (forall x :: x in m.cited ==> x in PresentedIds(retrievals))
  }

  /** The replayed retrievals: each with its hits, and with what was presented under its own id. */
  lemma RetrievalsReplayed(t: Trajectory, retrievals: seq<RetrievalResult>)
    requires MemoryShown(t.memory, retrievals)
    ensures var shown := WithPresentations(t).memory.retrievals;
            && |shown| == |retrievals|
            && forall i :: 0 <= i < |retrievals| ==>
                 shown[i] == ViewOf(retrievals[i]).(presented := RecordIds(retrievals[i].hits), violated := ViolatedIds(retrievals[i].hits))
  {
    var shown := WithPresentations(t).memory.retrievals;
    forall i | 0 <= i < |retrievals|
      ensures shown[i] == ViewOf(retrievals[i]).(presented := RecordIds(retrievals[i].hits), violated := ViolatedIds(retrievals[i].hits))
    {
      assert shown[i] == Joined(t.memory.retrievals[i], t.memory.presentedBy);
      assert PresentedAs(t.memory, retrievals[i]);
    }
  }

  // ------------------------------------------------------------- everything at once

  /** One moment of a run: the session's counters and log summaries, and the runtime's fields. */
  datatype Books = Books(usage: Usage, traj: Trajectory, audit: Audit, nextId: Id, plan: Option<Plan>, attempts: Attempts,
                         history: seq<TaskAttempt>, retrievals: seq<RetrievalResult>, written: nat, lessons: nat)

  /** No terminal event yet, and every model call answered. */
  predicate LogOpen(a: Audit) {
    a.terminals == 0 && a.calls.open.None? && a.calls.paired
  }

  ghost predicate CountersOk(b: Books) {
    && InSync(b.usage, b.traj.tally)
    && b.usage.toolCalls == |b.traj.steps|
    && b.usage.memoryWrites == b.written && b.usage.memoryReads == |b.retrievals|
    && |b.audit.lessonTasks| == b.lessons
    && (|b.traj.steps| == |b.history| ==> b.usage.retries == |b.history| - |b.attempts|)
  }

  ghost predicate VersionsOk(b: Books) {
    if b.plan.None? then b.audit.planUpdates == 0 && b.usage.strategyChanges == 0 && b.history == []
    else
      && PlanOk(b.plan.value, b.attempts, b.nextId)
      && b.plan.value.version == 1 + b.audit.planUpdates
      && b.plan.value.strategy.version == 1 + b.usage.strategyChanges
      && (forall x :: x in b.plan.value.informedBy ==> x in b.traj.memory.cited)
  }

  /** What holds at every moment between two operations of the loop, also after an error. */
  ghost predicate Coherent(b: Books, renderInput: Json -> string) {
    && LogOpen(b.audit)
    && CountersOk(b)
    && StepsShow(b.traj.steps, b.history, renderInput)
    && AttemptsOk(b.attempts, b.history)
    && VersionsOk(b)
    && LessonsOk(b.audit.lessonTasks, b.attempts)
    && MemoryShown(b.traj.memory, b.retrievals)
  }

  /** What holds in addition when no operation was cut short, but for tasks the plan or the learner has yet to hear of. */
  ghost predicate AtRestBut(b: Books, unplanned: set<Id>, unlearned: set<Id>) {
    && |b.traj.steps| == |b.history|
    && b.plan.Some?
    && PlanExact(b.plan.value, b.attempts, unplanned)
    && LessonsComplete(b.audit.lessonTasks, b.attempts, unlearned)
  }

  /**
   * The same two predicates, spelt over the longest prefix of the history, so
   * that the verifier carries them through the loop and unfolds them only where
   * `Unfold` is called.
   */
  ghost predicate Agree(b: Books, renderInput: Json -> string) {
    forall k :: k == |b.history| ==> Coherent(b.(history := b.history[..k]), renderInput)
  }

  ghost predicate RestedBut(b: Books, unplanned: set<Id>, unlearned: set<Id>) {
    forall k :: k == |b.history| ==> AtRestBut(b.(history := b.history[..k]), unplanned, unlearned)
  }

  ghost predicate Rested(b: Books) {
    RestedBut(b, {}, {})
  }

  lemma Unfold(b: Books, renderInput: Json -> string)
    ensures Agree(b, renderInput) <==> Coherent(b, renderInput)
  {
    assert b.history[..|b.history|] == b.history;
  }

  lemma UnfoldRest(b: Books, unplanned: set<Id>, unlearned: set<Id>)
    ensures RestedBut(b, unplanned, unlearned) <==> AtRestBut(b, unplanned, unlearned)
  {
    assert b.history[..|b.history|] == b.history;
  }

  // ------------------------------------------------- steps that keep the agreement

  /** Nothing but model-call accounting, fresh ids and unread events happened. */
  ghost predicate OnlyCallsMoved(b: Books, c: Books) {
    && c == b.(usage := c.usage, traj := b.traj.(tally := c.traj.tally), audit := b.audit.(calls := c.audit.calls), nextId := c.nextId)
    && b.nextId <= c.nextId
    && OnlyModelCalls(b.usage, b.traj.tally, c.usage, c.traj.tally, CallsBetween(b, c))
    && c.audit.calls.open.None? && c.audit.calls.paired == b.audit.calls.paired
  }

  function CallsBetween(b: Books, c: Books): nat {
    Max(0, c.usage.modelCalls - b.usage.modelCalls)
  }

  lemma CallsKeepCoherent(b: Books, c: Books, unplanned: set<Id>, unlearned: set<Id>, renderInput: Json -> string)
    requires Agree(b, renderInput) && OnlyCallsMoved(b, c)
    ensures Agree(c, renderInput) && (RestedBut(b, unplanned, unlearned) ==> RestedBut(c, unplanned, unlearned))
  {
    Unfold(b, renderInput);
    Unfold(c, renderInput);
    UnfoldRest(b, unplanned, unlearned);
    UnfoldRest(c, unplanned, unlearned);
  }

  /** A stored record is counted by the session, by the runtime and by the log. */
  ghost predicate OneWrite(b: Books, c: Books) {
    c == b.(usage := b.usage.(memoryWrites := b.usage.memoryWrites + 1), written := b.written + 1,
            traj := b.traj.(tally := b.traj.tally.(memoryWrites := b.traj.tally.memoryWrites + 1)))
  }

  lemma WriteKeepsCoherent(b: Books, c: Books, unplanned: set<Id>, unlearned: set<Id>, renderInput: Json -> string)
    requires Agree(b, renderInput) && OneWrite(b, c)
    ensures Agree(c, renderInput) && (RestedBut(b, unplanned, unlearned) ==> RestedBut(c, unplanned, unlearned))
  {
    Unfold(b, renderInput);
    Unfold(c, renderInput);
    UnfoldRest(b, unplanned, unlearned);
    UnfoldRest(c, unplanned, unlearned);
  }

  /** A plan that arrived: the first, or a revision. */
  lemma FirstPlanIsOk(plan: Plan, first: Id, next: Id)
    requires IsFirstPlan(plan, first, next)
    ensures PlanOk(plan, map[], next) && PlanExact(plan, map[], {})
  {
  }

  lemma RevisedTaskIsOk(previous: Plan, revised: Plan, attempts: Attempts, first: Id, next: Id, i: nat)
    requires PlanOk(previous, attempts, first) && PlanExact(previous, attempts, {}) && first <= next
    requires IsRevision(previous, revised, first, next) && i < |revised.tasks|
    ensures TaskOk(revised.tasks[i], attempts, next)
    ensures revised.tasks[i].status != TaskCompleted ==> !Succeeded(Previous(attempts, revised.tasks[i].taskId))
    ensures revised.tasks[i].status != Skipped
  {
    var done, t := CompletedTasks(previous.tasks), revised.tasks[i];
    assert t in revised.tasks;
    if i < |done| {
      assert t == done[i] && t in done;
      var k :| 0 <= k < |previous.tasks| && previous.tasks[k] == t;
      assert TaskOk(previous.tasks[k], attempts, first);
    } else {
      assert t == revised.tasks[|done|..][i - |done|];
      assert FromPrevious(previous, t, first);
      if !(t.taskId >= first && t.status == Pending && t.dependsOn == []) {
        var old_ :| old_ in previous.tasks && SameTask(old_, t);
        var k :| 0 <= k < |previous.tasks| && previous.tasks[k] == old_;
        assert TaskOk(previous.tasks[k], attempts, first);
      }
    }
  }

  lemma RevisionIsOk(previous: Plan, revised: Plan, attempts: Attempts, first: Id, next: Id)
    requires PlanOk(previous, attempts, first) && PlanExact(previous, attempts, {}) && first <= next
    requires IsRevision(previous, revised, first, next)
    ensures PlanOk(revised, attempts, next) && PlanExact(revised, attempts, {})
  {
    forall i | 0 <= i < |revised.tasks|
      ensures TaskOk(revised.tasks[i], attempts, next)
      ensures revised.tasks[i].status != TaskCompleted ==> !Succeeded(Previous(attempts, revised.tasks[i].taskId))
      ensures revised.tasks[i].status != Skipped
    {
      RevisedTaskIsOk(previous, revised, attempts, first, next, i);
    }
    forall t | t in attempts && Succeeded(attempts[t])
      ensures CompletedIn(revised.tasks, t)
    {
      CompletedTaskSurvives(previous, revised, t, first, next);
    }
  }

  /** No revision, whatever the model proposes, loses a completed task. */
  lemma CompletedTaskSurvives(previous: Plan, revised: Plan, t: Id, first: Id, next: Id)
    requires IsRevision(previous, revised, first, next) && CompletedIn(previous.tasks, t)
    ensures CompletedIn(revised.tasks, t)
  {
    var k :| 0 <= k < |previous.tasks| && previous.tasks[k].taskId == t && previous.tasks[k].status == TaskCompleted;
    var done := CompletedTasks(previous.tasks);
    assert previous.tasks[k] in done;
    var j :| 0 <= j < |done| && done[j] == previous.tasks[k];
    assert revised.tasks[..|done|][j] == revised.tasks[j];
  }

  /** Starting a task touches only copies of a task that has not succeeded. */
  lemma TaskStarted(plan: Plan, attempts: Attempts, nextId: Id, id: Id)
    requires PlanOk(plan, attempts, nextId) && PlanExact(plan, attempts, {})
    requires !Succeeded(Previous(attempts, id))
    ensures var p := WithTaskStatus(plan, id, InProgress);
            PlanOk(p, attempts, nextId) && PlanExact(p, attempts, {}) && (HasTask(plan, id) ==> HasTask(p, id))
  {
    var p := WithTaskStatus(plan, id, InProgress);
    assert forall i :: 0 <= i < |plan.tasks| ==> TaskOk(plan.tasks[i], attempts, nextId);
    forall t | t in attempts && Succeeded(attempts[t])
      ensures CompletedIn(p.tasks, t)
    {
      var i :| 0 <= i < |plan.tasks| && plan.tasks[i].taskId == t && plan.tasks[i].status == TaskCompleted;
      assert p.tasks[i] == plan.tasks[i];
    }
    if HasTask(plan, id) {
      var i :| 0 <= i < |plan.tasks| && plan.tasks[i].taskId == id;
      assert p.tasks[i].taskId == id;
    }
  }

  /** Completing the task that just succeeded ends its exemption. */
  lemma TaskFinished(plan: Plan, attempts: Attempts, nextId: Id, id: Id)
    requires PlanOk(plan, attempts, nextId) && PlanExact(plan, attempts, {id})
    requires id in attempts && Succeeded(attempts[id]) && HasTask(plan, id)
    ensures var p := WithTaskStatus(plan, id, TaskCompleted);
            PlanOk(p, attempts, nextId) && PlanExact(p, attempts, {})
  {
    var p := WithTaskStatus(plan, id, TaskCompleted);
    assert forall i :: 0 <= i < |plan.tasks| ==> TaskOk(plan.tasks[i], attempts, nextId);
    forall t | t in attempts && Succeeded(attempts[t])
      ensures CompletedIn(p.tasks, t)
    {
      if t == id {
        var i :| 0 <= i < |plan.tasks| && plan.tasks[i].taskId == id;
        assert p.tasks[i].taskId == id && p.tasks[i].status == TaskCompleted;
      } else {
        var i :| 0 <= i < |plan.tasks| && plan.tasks[i].taskId == t && plan.tasks[i].status == TaskCompleted;
        assert p.tasks[i] == plan.tasks[i];
      }
    }
  }

  /** When no task can be picked, every task is completed with a recorded success. */
  lemma NothingLeft(plan: Plan, attempts: Attempts, nextId: Id)
    requires PlanOk(plan, attempts, nextId) && PlanExact(plan, attempts, {}) && NextTask(plan).None?
    ensures AllTasksCompleted(plan, attempts)
  {
    forall t | t in plan.tasks
      ensures CompletedTask(t, attempts)
    {
      assert !Ready(plan, t);
      var i :| 0 <= i < |plan.tasks| && plan.tasks[i] == t;
      assert TaskOk(plan.tasks[i], attempts, nextId);
    }
  }

  /** A task that is picked is in the plan, and its last attempt, if any, failed. */
  lemma PickedTask(plan: Plan, attempts: Attempts, nextId: Id, task: PlanTask)
    requires PlanOk(plan, attempts, nextId) && PlanExact(plan, attempts, {})
    requires task in plan.tasks && !IsDone(task.status)
    ensures HasTask(plan, task.taskId) && task.taskId < nextId && !Succeeded(Previous(attempts, task.taskId))
  {
    var i :| 0 <= i < |plan.tasks| && plan.tasks[i] == task;
    assert TaskOk(plan.tasks[i], attempts, nextId);
  }

  // ------------------------------------------------------------------ one attempt

  /** A selected, executed and evaluated tool call: one more step, carrying its own verdict. */
  ghost predicate StepMade(b: Books, c: Books, a: TaskAttempt, renderInput: Json -> string) {
    var retried := if a.action.retryOf.Some? then 1 else 0;
    && c == b.(usage := b.usage.(toolCalls := b.usage.toolCalls + 1, retries := b.usage.retries + retried),
               traj := b.traj.(steps := b.traj.steps + [StepOf(a, |b.traj.steps|, renderInput)],
                               tally := b.traj.tally.(retries := b.traj.tally.retries + retried)),
               nextId := c.nextId)
    && b.nextId <= c.nextId
  }

  ghost function Recorded(c: Books, task: Id, a: TaskAttempt): Books {
    c.(attempts := c.attempts[task := Previous(c.attempts, task) + [a]], history := c.history + [a])
  }

  lemma CountersAfterAttempt(b: Books, c: Books, task: Id, a: TaskAttempt, renderInput: Json -> string)
    requires CountersOk(b) && |b.traj.steps| == |b.history| && StepMade(b, c, a, renderInput)
    requires a.action.retryOf.None? <==> task !in b.attempts
    ensures CountersOk(Recorded(c, task, a))
  {
    var d := Recorded(c, task, a);
    assert d.attempts.Keys == b.attempts.Keys + {task};
    assert |d.attempts.Keys| == |b.attempts.Keys| + if task in b.attempts then 0 else 1;
  }

  lemma StepsAfterAttempt(steps: seq<Step>, history: seq<TaskAttempt>, a: TaskAttempt, renderInput: Json -> string)
    requires StepsShow(steps, history, renderInput) && |steps| == |history|
    ensures StepsShow(steps + [StepOf(a, |steps|, renderInput)], history + [a], renderInput)
  {
  }

  /** Recording the attempt restores the agreement, except that the plan and the lessons have yet to hear of it. */
  lemma AttemptRecorded(b: Books, c: Books, task: Id, a: TaskAttempt, renderInput: Json -> string)
    requires Agree(b, renderInput) && Rested(b) && StepMade(b, c, a, renderInput)
    requires Continues(a, task, Previous(b.attempts, task)) && !Succeeded(Previous(b.attempts, task)) && task < b.nextId
    ensures Agree(Recorded(c, task, a), renderInput) && RestedBut(Recorded(c, task, a), {task}, {task})
  {
    Unfold(b, renderInput);
    UnfoldRest(b, {}, {});
    Unfold(Recorded(c, task, a), renderInput);
    UnfoldRest(Recorded(c, task, a), {task}, {task});
    assert task in b.attempts ==> WellNumbered(task, b.attempts[task]);
    AttemptAdded(b.attempts, b.history, task, a);
    CountersAfterAttempt(b, c, task, a, renderInput);
    StepsAfterAttempt(b.traj.steps, b.history, a, renderInput);
    PlanAfterAttempt(b.plan.value, b.attempts, b.nextId, c.nextId, task, a);
    LessonsAfterAttempt(b.audit.lessonTasks, b.attempts, task, a);
    AttemptPieces(b, Recorded(c, task, a), {task}, renderInput);
  }

  /** What the loop learns by recording an attempt: it is the first to succeed, if it does, and no lesson was drawn yet. */
  lemma AttemptTaken(b: Books, c: Books, task: Id, a: TaskAttempt, renderInput: Json -> string, embeddings: bool)
    requires Agree(b, renderInput) && Rested(b) && StepMade(b, c, a, renderInput)
    requires Continues(a, task, Previous(b.attempts, task)) && !Succeeded(Previous(b.attempts, task)) && task < b.nextId
    ensures Agree(Recorded(c, task, a), renderInput) && RestedBut(Recorded(c, task, a), {task}, {task})
    ensures AllFailed(Previous(b.attempts, task)) && Some(task) !in b.audit.lessonTasks
    ensures Within(b, Recorded(c, task, a), 0, 1, embeddings)
  {
    AttemptRecorded(b, c, task, a, renderInput);
    PreviousFailed(b, task, renderInput);
    NoLessonYet(b, task, renderInput);
  }

  /** The agreement of the later books, assembled from its parts. */
  lemma AttemptPieces(b: Books, d: Books, exempt: set<Id>, renderInput: Json -> string)
    requires Coherent(b, renderInput) && d.audit == b.audit && d.plan == b.plan && d.traj.memory == b.traj.memory
    requires d.retrievals == b.retrievals && d.usage.strategyChanges == b.usage.strategyChanges && b.plan.Some?
    requires CountersOk(d) && StepsShow(d.traj.steps, d.history, renderInput) && AttemptsOk(d.attempts, d.history)
    requires PlanOk(d.plan.value, d.attempts, d.nextId) && PlanExact(d.plan.value, d.attempts, exempt)
    requires LessonsOk(d.audit.lessonTasks, d.attempts) && LessonsComplete(d.audit.lessonTasks, d.attempts, exempt)
    requires |d.traj.steps| == |d.history|
    ensures Coherent(d, renderInput) && AtRestBut(d, exempt, exempt)
  {
  }

  lemma PlanAfterAttempt(plan: Plan, attempts: Attempts, nextId: Id, later: Id, task: Id, a: TaskAttempt)
    requires PlanOk(plan, attempts, nextId) && PlanExact(plan, attempts, {}) && nextId <= later && task < nextId
    requires !Succeeded(Previous(attempts, task))
    ensures var after := attempts[task := Previous(attempts, task) + [a]];
            PlanOk(plan, after, later) && PlanExact(plan, after, {task})
  {
    forall i | 0 <= i < |plan.tasks|
      ensures TaskOk(plan.tasks[i], attempts[task := Previous(attempts, task) + [a]], later)
    {
      assert TaskOk(plan.tasks[i], attempts, nextId);
    }
  }

  lemma LessonsAfterAttempt(lessonTasks: seq<Option<Id>>, attempts: Attempts, task: Id, a: TaskAttempt)
    requires LessonsOk(lessonTasks, attempts) && LessonsComplete(lessonTasks, attempts, {})
    requires !Succeeded(Previous(attempts, task))
    ensures var after := attempts[task := Previous(attempts, task) + [a]];
            LessonsOk(lessonTasks, after) && LessonsComplete(lessonTasks, after, {task}) && Some(task) !in lessonTasks
  {
    forall i | 0 <= i < |lessonTasks|
      ensures lessonTasks[i] != Some(task)
    {
      assert LessonDue(attempts[lessonTasks[i].value]);
    }
  }

  // --------------------------------------------------------------------- budgets

  /** How far one operation may move the counters that the limits watch. */
  ghost predicate Within(b: Books, c: Books, calls: nat, tools: nat, embeddings: bool) {
    && c.usage.iterations == b.usage.iterations
    && b.usage.toolCalls <= c.usage.toolCalls <= b.usage.toolCalls + tools
    && b.usage.modelCalls <= c.usage.modelCalls
    && (!embeddings ==> c.usage.modelCalls <= b.usage.modelCalls + calls)
    && c.traj.outcome == b.traj.outcome
    && b.nextId <= c.nextId
  }

  /** Records were stored: besides that, only model-call accounting moved. */
  ghost predicate Filed(b: Books, c: Books) {
    && c == b.(usage := c.usage, traj := b.traj.(tally := c.traj.tally), audit := b.audit.(calls := c.audit.calls),
               nextId := c.nextId, written := c.written)
  }

  /** The lesson of the task that just succeeded after failing: the first for this task. */
  lemma LessonAdded(b: Books, c: Books, task: Id, renderInput: Json -> string)
    requires Agree(b, renderInput) && RestedBut(b, {task}, {task})
    requires c == b.(audit := b.audit.(lessonTasks := b.audit.lessonTasks + [Some(task)]), lessons := b.lessons + 1)
    requires task in b.attempts && LessonDue(b.attempts[task]) && Some(task) !in b.audit.lessonTasks
    ensures Agree(c, renderInput) && RestedBut(c, {task}, {})
  {
    assert Agree(c, renderInput) by {
      Unfold(b, renderInput);
      LessonFits(b.audit.lessonTasks, b.attempts, task);
      Unfold(c, renderInput);
    }
    assert RestedBut(c, {task}, {}) by {
      UnfoldRest(b, {task}, {task});
      LessonCompletes(b.audit.lessonTasks, b.attempts, task);
      UnfoldRest(c, {task}, {});
    }
  }

  lemma LessonFits(lessonTasks: seq<Option<Id>>, attempts: Attempts, task: Id)
    requires LessonsOk(lessonTasks, attempts) && Some(task) !in lessonTasks
    requires task in attempts && LessonDue(attempts[task])
    ensures LessonsOk(lessonTasks + [Some(task)], attempts)
  {
  }

  lemma LessonCompletes(lessonTasks: seq<Option<Id>>, attempts: Attempts, task: Id)
    requires LessonsComplete(lessonTasks, attempts, {task})
    ensures LessonsComplete(lessonTasks + [Some(task)], attempts, {})
  {
    forall t | t in attempts && LessonDue(attempts[t])
      ensures Some(t) in lessonTasks + [Some(task)]
    {
      if t == task {
        assert (lessonTasks + [Some(task)])[|lessonTasks|] == Some(task);
      }
    }
  }

  /** A task that did not succeed, or succeeded at once, has no lesson to wait for. */
  lemma NoLessonDue(b: Books, task: Id, unplanned: set<Id>)
    requires RestedBut(b, unplanned, {task}) && task in b.attempts && !LessonDue(b.attempts[task])
    ensures RestedBut(b, unplanned, {})
  {
    UnfoldRest(b, unplanned, {task});
    UnfoldRest(b, unplanned, {});
  }

  /** A task that did not succeed has nothing to tell the plan. */
  lemma NothingToComplete(b: Books, task: Id, unlearned: set<Id>)
    requires RestedBut(b, {task}, unlearned) && task in b.attempts && !Succeeded(b.attempts[task])
    ensures RestedBut(b, {}, unlearned)
  {
    UnfoldRest(b, {task}, unlearned);
    UnfoldRest(b, {}, unlearned);
  }

  ghost predicate AllFailed(s: seq<TaskAttempt>) {
    forall i :: 0 <= i < |s| ==> s[i].evaluation.verdict != Success
  }

  /** While a task is still to be done, none of its attempts succeeded. */
  lemma PreviousFailed(b: Books, task: Id, renderInput: Json -> string)
    requires Agree(b, renderInput) && !Succeeded(Previous(b.attempts, task))
    ensures AllFailed(Previous(b.attempts, task))
  {
    Unfold(b, renderInput);
    if task in b.attempts {
      assert WellNumbered(task, b.attempts[task]);
    }
  }

  // ------------------------------------------------------- a step, event by event

  function SelectedStep(a: Action, index: nat, renderInput: Json -> string): Step {
    Step(index, Some(a.taskId), Some(a.actionId), a.toolName, a.intent, a.attempt, renderInput(a.input), None, None)
  }

  /** The tool's own completion or failure lands on the step just selected. */
  lemma ObservedLast(steps: seq<Step>, step: Step, o: Observed)
    requires step.actionId.Some?
    ensures Observe(steps + [step], step.actionId, o) == steps + [step.(observed := Some(o))]
  {
  }

  /** The evaluation of an action lands on that action's step. */
  lemma JudgedLast(steps: seq<Step>, step: Step, j: Judged)
    requires step.actionId.Some? && step.judged.None?
    ensures Judge(steps + [step], step.actionId, j) == steps + [step.(judged := Some(j))]
  {
  }

  /** An evaluation without an action, as of a finish claim, changes no step once every step has its verdict. */
  lemma ClaimLeavesSteps(b: Books, j: Judged, renderInput: Json -> string)
    requires Agree(b, renderInput) && Rested(b)
    ensures Judge(b.traj.steps, None, j) == b.traj.steps
  {
    Unfold(b, renderInput);
    UnfoldRest(b, {}, {});
    if b.traj.steps != [] {
      var k := |b.history| - 1;
      assert b.traj.steps[k] == StepOf(b.history[k], k, renderInput);
    }
  }

  /** An action was selected: its step is there, and a retry is counted. */
  ghost predicate StepSelected(b: Books, c: Books, a: Action, renderInput: Json -> string) {
    var retried := if a.retryOf.Some? then 1 else 0;
    c == b.(usage := b.usage.(retries := b.usage.retries + retried),
            traj := b.traj.(steps := b.traj.steps + [SelectedStep(a, |b.traj.steps|, renderInput)],
                            tally := b.traj.tally.(retries := b.traj.tally.retries + retried)))
  }

  /** The steps after the tool call: observed, or as they were when the tool threw. */
  function StepsAfterCall(steps: seq<Step>, a: Action, o: Option<Observation>): seq<Step> {
    if o.None? then steps else Observe(steps, Some(a.actionId), ObservedOf(o.value))
  }

  lemma SelectedThenExecuted(b: Books, c: Books, d: Books, a: Action, o: Option<Observation>, renderInput: Json -> string)
    requires Agree(b, renderInput) && Rested(b) && StepSelected(b, c, a, renderInput)
    requires d == c.(usage := Bumped(c.usage, ToolCalls), nextId := d.nextId,
                     traj := c.traj.(steps := StepsAfterCall(c.traj.steps, a, o)))
    requires c.nextId <= d.nextId
    ensures StepTried(b, d, a, o, renderInput) && Agree(d, renderInput)
  {
    if o.Some? {
      ObservedLast(b.traj.steps, SelectedStep(a, |b.traj.steps|, renderInput), ObservedOf(o.value));
    }
    TriedKeeps(b, d, a, o, renderInput);
  }

  /** The step of a tool call that has no verdict, nor an observation when the tool threw. */
  function TriedStep(a: Action, index: nat, o: Option<Observation>, renderInput: Json -> string): (step: Step)
    ensures step.judged.None?
  {
    SelectedStep(a, index, renderInput).(observed := if o.None? then None else Some(ObservedOf(o.value)))
  }

  /** A tool call was made and not yet judged. */
  ghost predicate StepTried(b: Books, c: Books, a: Action, o: Option<Observation>, renderInput: Json -> string) {
    var retried := if a.retryOf.Some? then 1 else 0;
    var step := TriedStep(a, |b.traj.steps|, o, renderInput);
    && c == b.(usage := b.usage.(toolCalls := b.usage.toolCalls + 1, retries := b.usage.retries + retried),
               traj := b.traj.(steps := b.traj.steps + [step],
                               tally := b.traj.tally.(retries := b.traj.tally.retries + retried)),
               nextId := c.nextId)
    && b.nextId <= c.nextId
  }

  lemma TriedKeeps(b: Books, c: Books, a: Action, o: Option<Observation>, renderInput: Json -> string)
    requires Agree(b, renderInput) && Rested(b) && StepTried(b, c, a, o, renderInput)
    ensures Agree(c, renderInput)
  {
    Unfold(b, renderInput);
    UnfoldRest(b, {}, {});
    StepsAfterTry(b.traj.steps, b.history, TriedStep(a, |b.traj.steps|, o, renderInput), renderInput);
    TriedPieces(b, c, renderInput);
    Unfold(c, renderInput);
  }

  lemma StepsAfterTry(steps: seq<Step>, history: seq<TaskAttempt>, step: Step, renderInput: Json -> string)
    requires StepsShow(steps, history, renderInput) && |steps| == |history| && step.judged.None?
    ensures StepsShow(steps + [step], history, renderInput)
  {
  }

  /** The agreement of the books with one step more, which no attempt belongs to yet. */
  lemma TriedPieces(b: Books, c: Books, renderInput: Json -> string)
    requires Coherent(b, renderInput) && |b.traj.steps| == |b.history| && |c.traj.steps| == |b.traj.steps| + 1
    requires StepsShow(c.traj.steps, b.history, renderInput) && b.nextId <= c.nextId && InSync(c.usage, c.traj.tally)
    requires c == b.(usage := c.usage, traj := b.traj.(steps := c.traj.steps, tally := c.traj.tally), nextId := c.nextId)
    requires c.usage == b.usage.(toolCalls := b.usage.toolCalls + 1, retries := c.usage.retries)
    ensures Coherent(c, renderInput)
  {
  }

  /** The verdict turns the tried step into a made one. */
  lemma TriedThenJudged(b: Books, c: Books, d: Books, a: TaskAttempt, renderInput: Json -> string)
    requires StepTried(b, c, a.action, Some(a.observation), renderInput)
    requires d == c.(traj := c.traj.(steps := Judge(c.traj.steps, Some(a.action.actionId), JudgedOf(a.evaluation))), nextId := d.nextId)
    requires c.nextId <= d.nextId
    ensures StepMade(b, d, a, renderInput)
  {
    JudgedLast(b.traj.steps, TriedStep(a.action, |b.traj.steps|, Some(a.observation), renderInput), JudgedOf(a.evaluation));
  }

  // --------------------------------------------------------------- plans in the books

  /** What the loop may rely on about its current plan. */
  lemma CurrentPlan(b: Books, renderInput: Json -> string)
    requires Agree(b, renderInput) && Rested(b)
    ensures b.plan.Some? && PlanOk(b.plan.value, b.attempts, b.nextId) && PlanExact(b.plan.value, b.attempts, {})
    ensures forall t :: t in b.plan.value.tasks ==> t.taskId < b.nextId
  {
    Unfold(b, renderInput);
    UnfoldRest(b, {}, {});
    forall t | t in b.plan.value.tasks
      ensures t.taskId < b.nextId
    {
      var i :| 0 <= i < |b.plan.value.tasks| && b.plan.value.tasks[i] == t;
      assert TaskOk(b.plan.value.tasks[i], b.attempts, b.nextId);
    }
  }

  /** The books after a plan arrived and was announced. */
  ghost function Replanned(b: Books, plan: Plan, strategyChanged: bool, nextId: Id): Books {
    var n := if strategyChanged then 1 else 0;
    b.(usage := b.usage.(strategyChanges := b.usage.strategyChanges + n),
       traj := b.traj.(tally := b.traj.tally.(strategyChanges := b.traj.tally.strategyChanges + n),
                       memory := b.traj.memory.(cited := AddAll(b.traj.memory.cited, plan.informedBy))),
       audit := b.audit.(planUpdates := b.audit.planUpdates + 1),
       plan := Some(plan), nextId := nextId)
  }

  lemma RevisionKeeps(b: Books, revised: Plan, first: Id, strategyChanged: bool, renderInput: Json -> string)
    requires Agree(b, renderInput) && Rested(b) && first <= b.nextId && b.plan.Some?
    requires PlanOk(b.plan.value, b.attempts, first)
    requires IsRevision(b.plan.value, revised, first, b.nextId)
    requires strategyChanged <==> revised.strategy.strategyId != b.plan.value.strategy.strategyId
    requires forall x :: x in revised.informedBy ==> x in PresentedIds(b.retrievals)
    ensures var c := Replanned(b, revised, strategyChanged, b.nextId); Agree(c, renderInput) && Rested(c)
  {
    var c := Replanned(b, revised, strategyChanged, b.nextId);
    Unfold(b, renderInput);
    UnfoldRest(b, {}, {});
    RevisionIsOk(b.plan.value, revised, b.attempts, first, b.nextId);
    RevisionPieces(b, c, renderInput);
    Unfold(c, renderInput);
    UnfoldRest(c, {}, {});
  }

  lemma RevisionPieces(b: Books, c: Books, renderInput: Json -> string)
    requires Coherent(b, renderInput) && AtRestBut(b, {}, {}) && c.plan.Some?
    requires c == Replanned(b, c.plan.value, c.usage.strategyChanges != b.usage.strategyChanges, b.nextId)
    requires PlanOk(c.plan.value, c.attempts, c.nextId) && PlanExact(c.plan.value, c.attempts, {})
    requires c.plan.value.version == b.plan.value.version + 1
    requires c.plan.value.strategy.version == b.plan.value.strategy.version + (c.usage.strategyChanges - b.usage.strategyChanges)
    requires forall x :: x in c.plan.value.informedBy ==> x in PresentedIds(b.retrievals)
    ensures Coherent(c, renderInput) && AtRestBut(c, {}, {})
  {
  }

  /** A status change of the plan, kept by the lemmas on plans. */
  lemma PlanReplaced(b: Books, plan: Plan, unlearned: set<Id>, unplanned: set<Id>, renderInput: Json -> string)
    requires Agree(b, renderInput) && RestedBut(b, unplanned, unlearned)
    requires b.plan.Some? && plan == b.plan.value.(tasks := plan.tasks)
    requires PlanOk(plan, b.attempts, b.nextId) && PlanExact(plan, b.attempts, {})
    ensures Agree(b.(plan := Some(plan)), renderInput) && RestedBut(b.(plan := Some(plan)), {}, unlearned)
  {
    var c := b.(plan := Some(plan));
    Unfold(b, renderInput);
    Unfold(c, renderInput);
    UnfoldRest(b, unplanned, unlearned);
    UnfoldRest(c, {}, unlearned);
  }

  /** A task still to be done has no lesson yet. */
  lemma NoLessonYet(b: Books, task: Id, renderInput: Json -> string)
    requires Agree(b, renderInput) && Rested(b) && !Succeeded(Previous(b.attempts, task))
    ensures Some(task) !in b.audit.lessonTasks
  {
    Unfold(b, renderInput);
    forall i | 0 <= i < |b.audit.lessonTasks|
      ensures b.audit.lessonTasks[i] != Some(task)
    {
      assert LessonDue(b.attempts[b.audit.lessonTasks[i].value]);
    }
  }

  // ------------------------------------------------------------ the start of a run

  /** The first retrieval is announced with its hits and presented as it was announced. */
  lemma FirstRetrieval(b: Books, c: Books, r: RetrievalResult, renderInput: Json -> string)
    requires Agree(b, renderInput) && b.retrievals == [] && b.plan.None?
    requires c == b.(usage := Bumped(b.usage, MemoryReads), retrievals := [r],
                     traj := b.traj.(memory := b.traj.memory.(
                       retrievals := b.traj.memory.retrievals + [ViewOf(r)],
                       presentedBy := b.traj.memory.presentedBy[r.retrievalId := PresentationOf(r)])))
    ensures Agree(c, renderInput)
  {
    Unfold(b, renderInput);
    Unfold(c, renderInput);
  }

  /** The statement of the goal is not part of the agreement. */
  lemma OutcomeIsFree(b: Books, c: Books, renderInput: Json -> string)
    requires Agree(b, renderInput) && c == b.(traj := b.traj.(outcome := c.traj.outcome))
    ensures Agree(c, renderInput)
  {
    Unfold(b, renderInput);
    Unfold(c, renderInput);
  }

  /** The first plan brings the run to rest. */
  lemma FirstPlanKeeps(b: Books, plan: Plan, first: Id, renderInput: Json -> string)
    requires Agree(b, renderInput) && b.plan.None? && |b.traj.steps| == 0
    requires IsFirstPlan(plan, first, b.nextId) && forall x :: x in plan.informedBy ==> x in PresentedIds(b.retrievals)
    ensures var c := b.(plan := Some(plan), traj := b.traj.(memory := b.traj.memory.(
                          cited := AddAll(b.traj.memory.cited, plan.informedBy))));
            Agree(c, renderInput) && Rested(c)
  {
    var c := b.(plan := Some(plan), traj := b.traj.(memory := b.traj.memory.(
                  cited := AddAll(b.traj.memory.cited, plan.informedBy))));
    Unfold(b, renderInput);
    FirstPlanIsOk(plan, first, b.nextId);
    assert b.attempts == map[];
    Unfold(c, renderInput);
    UnfoldRest(c, {}, {});
  }

  // ----------------------------------------------------------------- no success at all

  lemma {:induction false} NoSuccessGrouped(history: seq<TaskAttempt>, task: Id)
    requires AllFailed(history)
    ensures !Succeeded(Previous(Grouped(history), task))
  {
    if history != [] {
      NoSuccessGrouped(history[..|history| - 1], task);
    }
  }

  /** If no attempt of the run succeeded, a task of the plan is always left to pick. */
  lemma SomethingLeft(b: Books, renderInput: Json -> string)
    requires Agree(b, renderInput) && Rested(b) && AllFailed(b.history)
    ensures b.plan.Some? && NextTask(b.plan.value).Some?
  {
    Unfold(b, renderInput);
    UnfoldRest(b, {}, {});
    if NextTask(b.plan.value).None? {
      NothingLeft(b.plan.value, b.attempts, b.nextId);
      assert b.plan.value.tasks[0] in b.plan.value.tasks;
      NoSuccessGrouped(b.history, b.plan.value.tasks[0].taskId);
      assert false;
    }
  }

  // --------------------------------------------------------------------- completion

  predicate CompletedTask(t: PlanTask, attempts: Attempts) {
    t.status == TaskCompleted && Succeeded(Previous(attempts, t.taskId))
  }

  /** Every task of the plan is completed, with a recorded success as its last attempt. */
  predicate AllTasksCompleted(plan: Plan, attempts: Attempts) {
    forall t :: t in plan.tasks ==> CompletedTask(t, attempts)
  }

  /** The last event before the terminal one is a successful evaluation of the goal itself, not of an action. */
  predicate ClaimAccepted(log: seq<Event>) {
    |log| >= 2 &&
    var e := log[|log| - 2];
    e.payload.EvaluationCompleted? && e.payload.verdict == Success && e.correlation.actionId.None?
  }

  /** What `completed` means. */
  predicate SoundCompletion(plan: Plan, attempts: Attempts, log: seq<Event>) {
    || AllTasksCompleted(plan, attempts)
    || (ClaimAccepted(log) && forall t :: t in plan.tasks ==> CompletedTask(t, attempts) || t.status == Skipped)
  }

  /** Skipping what is left after an accepted claim keeps the books in agreement. */
  lemma SkippedKeeps(b: Books, renderInput: Json -> string)
    requires Agree(b, renderInput) && Rested(b) && b.plan.Some?
    ensures var p := WithRemainingTasksSkipped(b.plan.value);
            Agree(b.(plan := Some(p)), renderInput) &&
            forall t :: t in p.tasks ==> CompletedTask(t, b.attempts) || t.status == Skipped
  {
    var p := WithRemainingTasksSkipped(b.plan.value);
    Unfold(b, renderInput);
    UnfoldRest(b, {}, {});
    forall i | 0 <= i < |p.tasks|
      ensures TaskOk(p.tasks[i], b.attempts, b.nextId)
      ensures CompletedTask(p.tasks[i], b.attempts) || p.tasks[i].status == Skipped
    {
      assert TaskOk(b.plan.value.tasks[i], b.attempts, b.nextId);
    }
    Unfold(b.(plan := Some(p)), renderInput);
  }

  /** No operation was cut short: one step per attempt, and no lesson missing. */
  ghost predicate Whole(b: Books) {
    |b.traj.steps| == |b.history| && LessonsComplete(b.audit.lessonTasks, b.attempts, {})
  }

  lemma RestedIsWhole(b: Books)
    requires Rested(b)
    ensures Whole(b)
  {
    UnfoldRest(b, {}, {});
  }

  /** In a run that no error cut short, the tool calls are the attempts, and all but the first at each task are retries. */
  lemma RunAccounting(b: Books, renderInput: Json -> string)
    requires Coherent(b, renderInput) && Whole(b)
    ensures b.usage.toolCalls == TotalAttempts(b.attempts)
    ensures b.usage.retries == b.usage.toolCalls - |b.attempts|
  {
    AttemptsAreTheHistory(b.history);
  }

  /** One lesson for each task that succeeded after failing, and no other. */
  lemma LessonsExactly(b: Books, renderInput: Json -> string, task: Id)
    requires Coherent(b, renderInput) && Whole(b)
    ensures Some(task) in b.audit.lessonTasks <==> task in b.attempts && LessonDue(b.attempts[task])
  {
    if Some(task) in b.audit.lessonTasks {
      var i :| 0 <= i < |b.audit.lessonTasks| && b.audit.lessonTasks[i] == Some(task);
    }
  }
}
