// src/domain/plan.ts, src/agent/runtime/plan-tasks.ts and src/agent/planner.ts:
// plans, task selection, and how a proposal becomes a plan or a revision.

module Plans {
  import opened Support

  datatype TaskStatus = Pending | InProgress | TaskCompleted | TaskFailed | Skipped

  datatype PlanTask = PlanTask(taskId: Id, description: string, status: TaskStatus, dependsOn: seq<Id>,
                               expectedEvidence: seq<string>)

  datatype Strategy = Strategy(strategyId: Id, summary: string, version: nat, supersedes: Option<Id>,
                               changeReason: Option<string>)

  datatype Plan = Plan(planId: Id, version: nat, strategy: Strategy, tasks: seq<PlanTask>, informedBy: seq<Id>,
                       revisionReason: Option<string>)

  predicate IsDone(status: TaskStatus) { status == TaskCompleted || status == Skipped }

  predicate CompletedIn(tasks: seq<PlanTask>, id: Id) {
    exists i :: 0 <= i < |tasks| && tasks[i].taskId == id && tasks[i].status == TaskCompleted
  }

  predicate Ready(plan: Plan, task: PlanTask) {
    !IsDone(task.status) && forall d :: d in task.dependsOn ==> CompletedIn(plan.tasks, d)
  }

  function FirstReady(plan: Plan, from: nat): (r: Option<PlanTask>)
    requires from <= |plan.tasks|
    ensures r.Some? ==> exists i :: from <= i < |plan.tasks| && plan.tasks[i] == r.value && Ready(plan, r.value)
                                    && forall j :: from <= j < i ==> !Ready(plan, plan.tasks[j])
    ensures r.None? ==> forall j :: from <= j < |plan.tasks| ==> !Ready(plan, plan.tasks[j])
    decreases |plan.tasks| - from
  {
    if from == |plan.tasks| then None
    else if Ready(plan, plan.tasks[from]) then Some(plan.tasks[from])
    else FirstReady(plan, from + 1)
  }

  /** A ready task is neither completed nor skipped, and all that it depends on is completed. */
  lemma ReadyMeans(plan: Plan, task: PlanTask)
    ensures Ready(plan, task) <==>
            && task.status != TaskCompleted && task.status != Skipped
            && forall d :: d in task.dependsOn ==> exists t :: t in plan.tasks && t.taskId == d && t.status == TaskCompleted
  {
    forall d | d in task.dependsOn
      ensures CompletedIn(plan.tasks, d) <==> exists t :: t in plan.tasks && t.taskId == d && t.status == TaskCompleted
    {
      if t :| t in plan.tasks && t.taskId == d && t.status == TaskCompleted {
        var i :| 0 <= i < |plan.tasks| && plan.tasks[i] == t;
      }
      if i :| 0 <= i < |plan.tasks| && plan.tasks[i].taskId == d && plan.tasks[i].status == TaskCompleted {
        assert plan.tasks[i] in plan.tasks;
      }
    }
  }

  /** Plan order decides among the ready tasks. */
  function NextTask(plan: Plan): (r: Option<PlanTask>)
    ensures r.Some? ==> r.value in plan.tasks && Ready(plan, r.value)
    ensures r.None? ==> forall t :: t in plan.tasks ==> !Ready(plan, t)
  {
    FirstReady(plan, 0)
  }

  function WithTaskStatus(plan: Plan, id: Id, status: TaskStatus): (r: Plan)
    ensures r == plan.(tasks := r.tasks) && |r.tasks| == |plan.tasks|
    ensures forall i :: 0 <= i < |r.tasks| ==>
              r.tasks[i] == if plan.tasks[i].taskId == id then plan.tasks[i].(status := status) else plan.tasks[i]
  {
    plan.(tasks := seq(|plan.tasks|, i requires 0 <= i < |plan.tasks| =>
            if plan.tasks[i].taskId == id then plan.tasks[i].(status := status) else plan.tasks[i]))
  }

  function WithRemainingTasksSkipped(plan: Plan): (r: Plan)
    ensures r == plan.(tasks := r.tasks) && |r.tasks| == |plan.tasks|
    ensures forall i :: 0 <= i < |r.tasks| ==>
              r.tasks[i] == if IsDone(plan.tasks[i].status) then plan.tasks[i] else plan.tasks[i].(status := Skipped)
    ensures forall i :: 0 <= i < |r.tasks| ==> IsDone(r.tasks[i].status)
  {
    plan.(tasks := seq(|plan.tasks|, i requires 0 <= i < |plan.tasks| =>
            if IsDone(plan.tasks[i].status) then plan.tasks[i] else plan.tasks[i].(status := Skipped)))
  }

  function CompletedTasks(tasks: seq<PlanTask>): (r: seq<PlanTask>)
    ensures forall t :: t in r <==> t in tasks && t.status == TaskCompleted
  {
    if tasks == [] then []
    else
      var rest := CompletedTasks(tasks[..|tasks| - 1]);
      if tasks[|tasks| - 1].status == TaskCompleted then rest + [tasks[|tasks| - 1]] else rest
  }

  function UnfinishedTasks(tasks: seq<PlanTask>): (r: seq<PlanTask>)
    ensures forall t :: t in r <==> t in tasks && t.status != TaskCompleted
  {
    if tasks == [] then []
    else
      var rest := UnfinishedTasks(tasks[..|tasks| - 1]);
      if tasks[|tasks| - 1].status != TaskCompleted then rest + [tasks[|tasks| - 1]] else rest
  }

  /** Every task is on exactly one side, as often as before. */
  lemma {:induction false} TasksSplit(tasks: seq<PlanTask>)
    ensures multiset(CompletedTasks(tasks)) + multiset(UnfinishedTasks(tasks)) == multiset(tasks)
  {
    if tasks != [] {
      TasksSplit(tasks[..|tasks| - 1]);
      assert tasks == tasks[..|tasks| - 1] + [tasks[|tasks| - 1]];
    }
  }

  /** The filter keeps the order: of two stretches of tasks, the completed ones of the first come first. */
  lemma {:induction false} CompletedInOrder(a: seq<PlanTask>, b: seq<PlanTask>)
    ensures CompletedTasks(a + b) == CompletedTasks(a) + CompletedTasks(b)
  {
    if b == [] {
      assert a + b == a;
    } else {
      var init, all := b[..|b| - 1], a + b;
      CompletedInOrder(a, init);
      assert all[..|all| - 1] == a + init && all[|all| - 1] == b[|b| - 1];
      var left, right, last := CompletedTasks(a), CompletedTasks(init), b[|b| - 1];
      assert (left + right) + [last] == left + (right + [last]);
      assert CompletedTasks(all) == if last.status == TaskCompleted then (left + right) + [last] else left + right;
    }
  }

  lemma {:induction false} UnfinishedInOrder(a: seq<PlanTask>, b: seq<PlanTask>)
    ensures UnfinishedTasks(a + b) == UnfinishedTasks(a) + UnfinishedTasks(b)
  {
    if b == [] {
      assert a + b == a;
    } else {
      var init, all := b[..|b| - 1], a + b;
      UnfinishedInOrder(a, init);
      assert all[..|all| - 1] == a + init && all[|all| - 1] == b[|b| - 1];
      var left, right, last := UnfinishedTasks(a), UnfinishedTasks(init), b[|b| - 1];
      assert (left + right) + [last] == left + (right + [last]);
      assert UnfinishedTasks(all) == if last.status != TaskCompleted then (left + right) + [last] else left + right;
    }
  }

  predicate DistinctTasks(tasks: seq<PlanTask>) {
    forall i, j :: 0 <= i < j < |tasks| ==> tasks[i].taskId != tasks[j].taskId
  }

  lemma {:induction false} CompletedDistinct(tasks: seq<PlanTask>)
    requires DistinctTasks(tasks)
    ensures DistinctTasks(CompletedTasks(tasks))
  {
    if tasks != [] {
      var n := |tasks| - 1;
      CompletedDistinct(tasks[..n]);
      var rest := CompletedTasks(tasks[..n]);
      forall i | 0 <= i < |rest|
        ensures rest[i].taskId != tasks[n].taskId
      {
        assert rest[i] in tasks[..n];
      }
    }
  }

  /** With no completed task among them, all stay. */
  lemma {:induction false} AllUnfinished(tasks: seq<PlanTask>)
    requires forall t :: t in tasks ==> t.status != TaskCompleted
    ensures UnfinishedTasks(tasks) == tasks
  {
    if tasks != [] {
      AllUnfinished(tasks[..|tasks| - 1]);
      assert tasks == tasks[..|tasks| - 1] + [tasks[|tasks| - 1]];
    }
  }

  /** `new Map(tasks.map(t => [t.taskId, t]))`: a repeated id keeps its last task. */
  function TaskMap(tasks: seq<PlanTask>): (m: map<Id, PlanTask>)
    ensures forall id :: id in m ==> m[id] in tasks && m[id].taskId == id
    ensures forall t :: t in tasks ==> t.taskId in m
  {
    if tasks == [] then map[]
    else TaskMap(tasks[..|tasks| - 1])[tasks[|tasks| - 1].taskId := tasks[|tasks| - 1]]
  }

  lemma {:induction false} LastTaskCounts(tasks: seq<PlanTask>, i: nat)
    requires i < |tasks| && forall j :: i < j < |tasks| ==> tasks[j].taskId != tasks[i].taskId
    ensures TaskMap(tasks)[tasks[i].taskId] == tasks[i]
  {
    if i < |tasks| - 1 {
      LastTaskCounts(tasks[..|tasks| - 1], i);
    }
  }
}

module Planning {
  import opened Support
  import opened Events
  import opened Trajectories
  import opened Sessions
  import opened Json
  import opened Text
  import opened Proposals
  import opened Models
  import opened Plans

  datatype HitRef = HitRef(recordId: Id, violated: bool)
  datatype RetrievalResult = RetrievalResult(retrievalId: Id, hits: seq<HitRef>, signalsUsed: seq<string>, suppressed: bool)

  function RecordIds(hits: seq<HitRef>): (r: seq<Id>)
    ensures |r| == |hits| && forall i :: 0 <= i < |r| ==> r[i] == hits[i].recordId
  {
    seq(|hits|, i requires 0 <= i < |hits| => hits[i].recordId)
  }

  /** Ids of the records the model was shown, without repetition. */
  function PresentedIds(retrievals: seq<RetrievalResult>): (r: seq<Id>)
    ensures forall x :: x in r ==> exists k :: 0 <= k < |retrievals| && x in RecordIds(retrievals[k].hits)
    ensures forall k, x :: 0 <= k < |retrievals| && x in RecordIds(retrievals[k].hits) ==> x in r
  {
    if retrievals == [] then []
    else AddAll(PresentedIds(retrievals[..|retrievals| - 1]), RecordIds(retrievals[|retrievals| - 1].hits))
  }

  /** What is left of the citations: ids of presented records, each once. */
  function Trusted(presented: seq<Id>, cited: seq<Id>): (r: seq<Id>)
    ensures forall x :: x in r <==> x in cited && x in presented
    ensures forall i, j :: 0 <= i < j < |r| ==> r[i] != r[j]
  {
    if cited == [] then []
    else
      var rest := Trusted(presented, cited[..|cited| - 1]);
      var last := cited[|cited| - 1];
      if last in presented && last !in rest then rest + [last] else rest
  }

  /** What the run's handler can see of a thrown error. */
  datatype RunError = RunError(message: string, details: seq<string>)

  function OfModel(e: ModelError): RunError { RunError(e.message, []) }

  /** Messages of errors that carry validation details include them. */
  function DescribeUnrecoverable(e: RunError): (text: string)
    ensures e.message <= text && (e.details == [] ==> text == e.message)
    ensures e.details != [] ==> text[|e.message|..] == ": " + Join(e.details, "; ")
  {
    if e.details == [] then e.message else e.message + ": " + Join(e.details, "; ")
  }

  /** The unfinished task that a proposal echoes, if any. */
  function Echo(p: TaskProposal, existing: map<Id, PlanTask>, asTaskId: string -> Id): (r: Option<Id>)
    ensures r.Some? ==> r.value in existing && existing[r.value].status != TaskCompleted
    ensures r.Some? ==> p.taskId.Some? && r.value == asTaskId(p.taskId.value)
    ensures r.None? && p.taskId.Some? ==> forall id :: id in existing && id == asTaskId(p.taskId.value) ==> existing[id].status == TaskCompleted
  {
    if p.taskId.Some? && asTaskId(p.taskId.value) in existing && existing[asTaskId(p.taskId.value)].status != TaskCompleted
    then Some(asTaskId(p.taskId.value)) else None
  }

  /**
   * A proposal keeps an unfinished task of the previous plan that it echoes;
   * anything else is a new pending task with an id minted from `first`.
   */
  predicate Materialised(p: TaskProposal, task: PlanTask, existing: map<Id, PlanTask>, asTaskId: string -> Id, first: Id) {
    && task.description == p.description && task.expectedEvidence == p.expectedEvidence
    && var echo := Echo(p, existing, asTaskId);
       if echo.Some? then task == existing[echo.value].(description := p.description, expectedEvidence := p.expectedEvidence)
       else task.taskId >= first && task.status == Pending && task.dependsOn == []
  }

  /** A first plan: version 1 of everything, and at least one task, each new, pending and free of dependencies. */
  ghost predicate IsFirstPlan(plan: Plan, first: Id, next: Id) {
    && plan.version == 1 && plan.strategy.version == 1 && plan.strategy.strategyId < next
    && plan.tasks != []
    && forall i :: 0 <= i < |plan.tasks| ==>
         var t := plan.tasks[i]; first <= t.taskId < next && t.status == Pending && t.dependsOn == []
  }

  /** Everything a revision may do to a plan: it keeps the completed tasks and adds at least one other. */
  ghost predicate IsRevision(previous: Plan, revised: Plan, first: Id, next: Id) {
    && revised.version == previous.version + 1
    && AreRevised(previous, revised.tasks, first, next)
    && (revised.strategy == previous.strategy || IsNewStrategy(previous.strategy, revised.strategy, first, next))
  }

  /** The completed tasks come first, unchanged, and at least one other follows. */
  ghost predicate AreRevised(previous: Plan, tasks: seq<PlanTask>, first: Id, next: Id) {
    var done := CompletedTasks(previous.tasks);
    && |tasks| > |done| && tasks[..|done|] == done
    && (forall t :: t in tasks[|done|..] ==> FromPrevious(previous, t, first))
    && (forall t :: t in tasks ==> t.taskId < next)
  }

  ghost predicate IsNewStrategy(previous: Strategy, revised: Strategy, first: Id, next: Id) {
    && first <= revised.strategyId < next
    && revised.version == previous.version + 1
    && revised.supersedes == Some(previous.strategyId) && revised.changeReason.Some?
  }

  lemma RevisedSince(previous: Plan, revised: Plan, first: Id, later: Id, next: Id)
    requires IsRevision(previous, revised, later, next) && first <= later
    ensures IsRevision(previous, revised, first, next)
  {
  }

  /** A task of the revision that was not completed before: new, or the same unfinished task reworded. */
  ghost predicate FromPrevious(previous: Plan, task: PlanTask, first: Id) {
    || (task.taskId >= first && task.status == Pending && task.dependsOn == [])
    || (task.status != TaskCompleted && exists t :: t in previous.tasks && SameTask(t, task))
  }

  predicate SameTask(a: PlanTask, b: PlanTask) {
    a.taskId == b.taskId && a.status == b.status && a.dependsOn == b.dependsOn
  }

  /** The task carries the words of the proposal. */
  predicate Words(p: TaskProposal, task: PlanTask) {
    task.description == p.description && task.expectedEvidence == p.expectedEvidence
  }

  /** The proposed tasks follow the completed ones. */
  ghost predicate TasksSay(previous: Plan, proposals: seq<TaskProposal>, tasks: seq<PlanTask>) {
    var done := |CompletedTasks(previous.tasks)|;
    |tasks| == done + |proposals| && forall i :: done <= i < |tasks| ==> Words(proposals[i - done], tasks[i])
  }

  /** What a planner's error is made of: the failure of the last call, or what was wrong with its answer. */
  ghost predicate PlanningFails<T>(answer: Result<Answer, ModelError>, parse: Json -> Result<T, seq<string>>, message: string, e: RunError) {
    if answer.Err? then e == RunError(answer.error.message, [])
    else parse(answer.value.raw).Err? && e == RunError(message, parse(answer.value.raw).error)
  }

  const INVALID_PLAN := "Model returned an invalid plan"
  const INVALID_REVISION := "Model returned an invalid plan revision"

  class ModelPlanner {
    const model: ResilientModelProvider
    const asTaskId: string -> Id    // how the run's generator spells its ids
    const asRecordId: string -> Id

    constructor (model: ResilientModelProvider, asTaskId: string -> Id, asRecordId: string -> Id)
      ensures this.model == model && this.asTaskId == asTaskId && this.asRecordId == asRecordId
    {
      this.model, this.asTaskId, this.asRecordId := model, asTaskId, asRecordId;
    }

    function Cited(cited: seq<string>): seq<Id> {
      seq(|cited|, i requires 0 <= i < |cited| => asRecordId(cited[i]))
    }

    predicate EchoTheSame(p: TaskProposal, q: TaskProposal, existing: map<Id, PlanTask>) {
      Echo(p, existing, asTaskId).Some? && Echo(p, existing, asTaskId) == Echo(q, existing, asTaskId)
    }

    ghost predicate NoneEchoedTwice(proposals: seq<TaskProposal>, existing: map<Id, PlanTask>) {
      forall i, j :: 0 <= i < j < |proposals| ==> !EchoTheSame(proposals[i], proposals[j], existing)
    }

    /** Two tasks of a materialised list share their id exactly when their proposals echo the same task. */
    ghost predicate SharedAreEchoed(proposals: seq<TaskProposal>, existing: map<Id, PlanTask>, tasks: seq<PlanTask>)
      requires |tasks| <= |proposals|
    {
      forall i, j :: 0 <= i < j < |tasks| ==>
        (tasks[i].taskId == tasks[j].taskId <==> EchoTheSame(proposals[i], proposals[j], existing))
    }

    method MaterialiseTasks(proposals: seq<TaskProposal>, existing: map<Id, PlanTask>) returns (tasks: seq<PlanTask>)
      requires forall id :: id in existing ==> existing[id].taskId == id < model.inner.session.nextId
      modifies model.inner.session`nextId
      ensures |tasks| == |proposals| && old(model.inner.session.nextId) <= model.inner.session.nextId
      ensures forall i :: 0 <= i < |tasks| ==>
                Materialised(proposals[i], tasks[i], existing, asTaskId, old(model.inner.session.nextId))
      ensures forall i :: 0 <= i < |tasks| ==> tasks[i].taskId < model.inner.session.nextId
      ensures SharedAreEchoed(proposals, existing, tasks)
    {
      var session := model.inner.session;
      ghost var first := session.nextId;
      tasks := [];
      for k := 0 to |proposals|
        invariant |tasks| == k && first <= session.nextId
        invariant forall i :: 0 <= i < k ==> Materialised(proposals[i], tasks[i], existing, asTaskId, first)
        invariant forall i :: 0 <= i < k ==> tasks[i].taskId < session.nextId
        invariant forall i :: 0 <= i < k && Echo(proposals[i], existing, asTaskId).Some? ==>
                    tasks[i].taskId == Echo(proposals[i], existing, asTaskId).value < first
        invariant forall i :: 0 <= i < k && Echo(proposals[i], existing, asTaskId).None? ==> tasks[i].taskId >= first
        invariant SharedAreEchoed(proposals, existing, tasks)
      {
        var p := proposals[k];
        var echo := Echo(p, existing, asTaskId);
        if echo.Some? {
          var kept := existing[echo.value];
          tasks := tasks + [kept.(description := p.description, expectedEvidence := p.expectedEvidence)];
        } else {
          var id := session.NextId();
          tasks := tasks + [PlanTask(id, p.description, Pending, [], p.expectedEvidence)];
        }
      }
    }

    /** The plan says what was proposed, and cites what was presented. */
    ghost predicate FirstSays(proposal: PlanProposal, presented: seq<Id>, plan: Plan) {
      && plan.strategy.summary == proposal.strategySummary
      && plan.informedBy == Trusted(presented, Cited(proposal.cited))
      && |plan.tasks| == |proposal.tasks| && forall i :: 0 <= i < |plan.tasks| ==> Words(proposal.tasks[i], plan.tasks[i])
    }

    /** The same for a revision, whose proposed tasks follow the completed ones. */
    ghost predicate RevisionSays(previous: Plan, proposal: RevisionProposal, presented: seq<Id>, plan: Plan) {
      && plan.strategy.summary == (if proposal.strategyChanged then proposal.base.strategySummary else previous.strategy.summary)
      && (proposal.strategyChanged ==> plan.strategy.changeReason == Some(proposal.changeReason.GetOr(proposal.revisionReason)))
      && plan.informedBy == Trusted(presented, Cited(proposal.base.cited))
      && plan.revisionReason == Some(proposal.revisionReason)
      && TasksSay(previous, proposal.base.tasks, plan.tasks)
    }

    /** The plan, or the error, is what the model's answer says. */
    ghost predicate PlanFollows(answer: Result<Answer, ModelError>, presented: seq<Id>, r: Result<Plan, RunError>) {
      if r.Err? then PlanningFails(answer, ParsePlanProposal, INVALID_PLAN, r.error)
      else
        && answer.Ok? && ParsePlanProposal(answer.value.raw).Ok?
        && FirstSays(ParsePlanProposal(answer.value.raw).value, presented, r.value)
    }

    ghost predicate RevisionFollows(answer: Result<Answer, ModelError>, previous: Plan, presented: seq<Id>, r: Result<Plan, RunError>) {
      if r.Err? then PlanningFails(answer, ParseRevisionProposal, INVALID_REVISION, r.error)
      else
        && answer.Ok? && ParseRevisionProposal(answer.value.raw).Ok?
        && RevisionSays(previous, ParseRevisionProposal(answer.value.raw).value, presented, r.value)
    }

    method CreatePlan(retrievals: seq<RetrievalResult>) returns (r: Result<Plan, RunError>)
      requires model.inner.session.Valid() && model.inner.session.audit.calls.open.None? && model.DelaysCapped()
      modifies model, model.inner.session`log, model.inner.session`traj, model.inner.session`audit,
               model.inner.session`nextId, model.inner.session.factory, model.inner.session.tracker
      ensures model.inner.session.Valid() && model.DelaysCapped()
      ensures LogicalCall(old(LedgerOf(model.inner.session)), LedgerOf(model.inner.session), Purpose.CreatePlan, model.options)
      ensures model.inner.session.traj == old(model.inner.session.traj).(tally := model.inner.session.traj.tally)
      ensures model.inner.session.audit == old(model.inner.session.audit).(calls := model.inner.session.audit.calls)
      ensures old(model.inner.session.log) <= model.inner.session.log
      ensures old(model.inner.session.nextId) <= model.inner.session.nextId
      ensures r.Ok? ==> IsFirstPlan(r.value, old(model.inner.session.nextId), model.inner.session.nextId)
      ensures r.Ok? ==> DistinctTasks(r.value.tasks)
      ensures r.Ok? ==> forall x :: x in r.value.informedBy ==> x in PresentedIds(retrievals)
      ensures forall a {:trigger PlanFollows(a, PresentedIds(retrievals), r)} :: a == model.LastAnswer() ==>
                PlanFollows(a, PresentedIds(retrievals), r)
    {
      var session := model.inner.session;
      var presented := PresentedIds(retrievals);
      var answer := model.StructuredGenerate(Purpose.CreatePlan, ParsePlanProposal);
      if answer.Err? {
        return Err(OfModel(answer.error));
      }
      if answer.value.Err? {
        return Err(RunError(INVALID_PLAN, answer.value.error));
      }
      var plan := FirstPlan(answer.value.value, presented);
      r := Ok(plan);
    }

    method FirstPlan(proposal: PlanProposal, presented: seq<Id>) returns (plan: Plan)
      requires proposal.tasks != []
      modifies model.inner.session`nextId
      ensures old(model.inner.session.nextId) <= model.inner.session.nextId
      ensures IsFirstPlan(plan, old(model.inner.session.nextId), model.inner.session.nextId)
      ensures FirstSays(proposal, presented, plan)
      ensures DistinctTasks(plan.tasks)
    {
      var session := model.inner.session;
      var strategyId := session.NextId();
      var planId := session.NextId();
      var tasks := MaterialiseTasks(proposal.tasks, map[]);
      plan := Plan(planId, 1, Strategy(strategyId, proposal.strategySummary, 1, None, None), tasks,
                   Trusted(presented, Cited(proposal.cited)), None);
      forall i | 0 <= i < |tasks|
        ensures old(session.nextId) <= tasks[i].taskId && tasks[i].status == Pending && tasks[i].dependsOn == []
      {
        assert Materialised(proposal.tasks[i], tasks[i], map[], asTaskId, old(session.nextId) + 2);
      }
    }

    method RevisePlan(retrievals: seq<RetrievalResult>, previous: Plan) returns (r: Result<Plan, RunError>)
      requires model.inner.session.Valid() && model.inner.session.audit.calls.open.None? && model.DelaysCapped()
      requires forall t :: t in previous.tasks ==> t.taskId < model.inner.session.nextId
      modifies model, model.inner.session`log, model.inner.session`traj, model.inner.session`audit,
               model.inner.session`nextId, model.inner.session.factory, model.inner.session.tracker
      ensures model.inner.session.Valid() && model.DelaysCapped()
      ensures LogicalCall(old(LedgerOf(model.inner.session)), LedgerOf(model.inner.session), Purpose.RevisePlan, model.options)
      ensures model.inner.session.traj == old(model.inner.session.traj).(tally := model.inner.session.traj.tally)
      ensures model.inner.session.audit == old(model.inner.session.audit).(calls := model.inner.session.audit.calls)
      ensures old(model.inner.session.log) <= model.inner.session.log
      ensures old(model.inner.session.nextId) <= model.inner.session.nextId
      ensures r.Ok? ==> IsRevision(previous, r.value, old(model.inner.session.nextId), model.inner.session.nextId)
      ensures r.Ok? ==> forall x :: x in r.value.informedBy ==> x in PresentedIds(retrievals)
      ensures forall a {:trigger RevisionFollows(a, previous, PresentedIds(retrievals), r)} :: a == model.LastAnswer() ==>
                RevisionFollows(a, previous, PresentedIds(retrievals), r)
    {
      var session := model.inner.session;
      var presented := PresentedIds(retrievals);
      var answer := model.StructuredGenerate(Purpose.RevisePlan, ParseRevisionProposal);
      if answer.Err? {
        return Err(OfModel(answer.error));
      }
      ghost var later := session.nextId;
      r := ReviseFrom(previous, answer.value, presented);
      if r.Ok? {
        RevisedSince(previous, r.value, old(session.nextId), later, session.nextId);
      }
    }

    /** What an answer of the model makes of the plan. */
    method ReviseFrom(previous: Plan, parsed: Result<RevisionProposal, seq<string>>, presented: seq<Id>) returns (r: Result<Plan, RunError>)
      requires parsed.Ok? ==> parsed.value.base.tasks != []
      requires forall t :: t in previous.tasks ==> t.taskId < model.inner.session.nextId
      modifies model.inner.session`nextId
      ensures old(model.inner.session.nextId) <= model.inner.session.nextId
      ensures r.Ok? <==> parsed.Ok?
      ensures r.Ok? ==> IsRevision(previous, r.value, old(model.inner.session.nextId), model.inner.session.nextId)
      ensures r.Ok? ==> RevisionSays(previous, parsed.value, presented, r.value)
      ensures r.Err? ==> r.error == RunError(INVALID_REVISION, parsed.error)
    {
      if parsed.Err? {
        return Err(RunError(INVALID_REVISION, parsed.error));
      }
      var plan := Revision(previous, parsed.value, presented);
      r := Ok(plan);
    }

    method NextStrategy(previous: Strategy, proposal: RevisionProposal) returns (strategy: Strategy)
      modifies model.inner.session`nextId
      ensures old(model.inner.session.nextId) <= model.inner.session.nextId
      ensures !proposal.strategyChanged ==> strategy == previous
      ensures proposal.strategyChanged ==>
                IsNewStrategy(previous, strategy, old(model.inner.session.nextId), model.inner.session.nextId)
                && strategy.summary == proposal.base.strategySummary
                && strategy.changeReason == Some(proposal.changeReason.GetOr(proposal.revisionReason))
    {
      strategy := previous;
      if proposal.strategyChanged {
        var strategyId := model.inner.session.NextId();
        var reason := if proposal.changeReason.Some? then proposal.changeReason.value else proposal.revisionReason;
        strategy := Strategy(strategyId, proposal.base.strategySummary, previous.version + 1,
                             Some(previous.strategyId), Some(reason));
      }
    }

    /** The completed tasks, then what the proposals echo or add. */
    method ReviseTasks(previous: Plan, proposals: seq<TaskProposal>) returns (tasks: seq<PlanTask>)
      requires proposals != []
      requires forall t :: t in previous.tasks ==> t.taskId < model.inner.session.nextId
      modifies model.inner.session`nextId
      ensures old(model.inner.session.nextId) <= model.inner.session.nextId
      ensures AreRevised(previous, tasks, old(model.inner.session.nextId), model.inner.session.nextId)
      ensures DistinctTasks(previous.tasks) ==>
                (DistinctTasks(tasks) <==> NoneEchoedTwice(proposals, TaskMap(previous.tasks)))
      ensures TasksSay(previous, proposals, tasks)
    {
      ghost var first := model.inner.session.nextId;
      var revised := MaterialiseTasks(proposals, TaskMap(previous.tasks));
      tasks := CompletedTasks(previous.tasks) + UnfinishedTasks(revised);
      RevisedTasks(previous, proposals, revised, asTaskId, first);
      IdsStayDistinct(this, previous, proposals, revised, first);
      AllUnfinished(revised);
      CompletedThenRevised(previous, proposals, revised, first, model.inner.session.nextId);
    }

    method Revision(previous: Plan, proposal: RevisionProposal, presented: seq<Id>) returns (plan: Plan)
      requires proposal.base.tasks != []
      requires forall t :: t in previous.tasks ==> t.taskId < model.inner.session.nextId
      modifies model.inner.session`nextId
      ensures old(model.inner.session.nextId) <= model.inner.session.nextId
      ensures RevisionSays(previous, proposal, presented, plan)
      ensures IsRevision(previous, plan, old(model.inner.session.nextId), model.inner.session.nextId)
      ensures proposal.strategyChanged ==> plan.strategy.version == previous.strategy.version + 1
      ensures !proposal.strategyChanged ==> plan.strategy == previous.strategy
      ensures DistinctTasks(previous.tasks) ==>
                (DistinctTasks(plan.tasks) <==> NoneEchoedTwice(proposal.base.tasks, TaskMap(previous.tasks)))
    {
      var strategy := NextStrategy(previous.strategy, proposal);
      var tasks := ReviseTasks(previous, proposal.base.tasks);
      var planId := model.inner.session.NextId();
      plan := Plan(planId, previous.version + 1, strategy, tasks,
                   Trusted(presented, Cited(proposal.base.cited)), Some(proposal.revisionReason));
    }
  }

  /**
   * A revision of a plan without repeated ids has none either if and only if no
   * unfinished task is echoed twice.
   */
  lemma IdsStayDistinct(planner: ModelPlanner, previous: Plan, proposals: seq<TaskProposal>, revised: seq<PlanTask>, first: Id)
    requires |revised| == |proposals| && forall t :: t in previous.tasks ==> t.taskId < first
    requires forall i :: 0 <= i < |revised| ==>
               Materialised(proposals[i], revised[i], TaskMap(previous.tasks), planner.asTaskId, first)
    requires planner.SharedAreEchoed(proposals, TaskMap(previous.tasks), revised)
    ensures DistinctTasks(previous.tasks) ==>
              (DistinctTasks(CompletedTasks(previous.tasks) + UnfinishedTasks(revised)) <==>
               planner.NoneEchoedTwice(proposals, TaskMap(previous.tasks)))
  {
    var existing, done := TaskMap(previous.tasks), CompletedTasks(previous.tasks);
    forall i | 0 <= i < |revised|
      ensures revised[i].status != TaskCompleted
      ensures DistinctTasks(previous.tasks) ==> forall t :: t in done ==> t.taskId != revised[i].taskId
    {
      NotCompletedBefore(previous, proposals[i], revised[i], planner.asTaskId, first);
    }
    AllUnfinished(revised);
    if DistinctTasks(previous.tasks) {
      CompletedDistinct(previous.tasks);
      BothDistinct(done, revised);
    }
  }

  lemma CompletedThenRevised(previous: Plan, proposals: seq<TaskProposal>, revised: seq<PlanTask>, first: Id, next: Id)
    requires |revised| == |proposals| > 0 && first <= next
    requires forall i :: 0 <= i < |revised| ==> Words(proposals[i], revised[i])
    requires forall t :: t in revised ==> FromPrevious(previous, t, first)
    requires forall t :: t in previous.tasks + revised ==> t.taskId < next
    ensures AreRevised(previous, CompletedTasks(previous.tasks) + revised, first, next)
    ensures TasksSay(previous, proposals, CompletedTasks(previous.tasks) + revised)
  {
    var done := CompletedTasks(previous.tasks);
    assert (done + revised)[..|done|] == done && (done + revised)[|done|..] == revised;
  }

  /** A materialised task is not completed, and its id is not that of a completed one. */
  lemma NotCompletedBefore(previous: Plan, p: TaskProposal, task: PlanTask, asTaskId: string -> Id, first: Id)
    requires Materialised(p, task, TaskMap(previous.tasks), asTaskId, first)
    requires forall t :: t in previous.tasks ==> t.taskId < first
    ensures task.status != TaskCompleted
    ensures DistinctTasks(previous.tasks) ==> forall t :: t in CompletedTasks(previous.tasks) ==> t.taskId != task.taskId
  {
    var existing := TaskMap(previous.tasks);
    if DistinctTasks(previous.tasks) && task.taskId in existing {
      OnlyTask(previous.tasks, existing[task.taskId]);
    }
  }

  lemma OnlyTask(tasks: seq<PlanTask>, task: PlanTask)
    requires DistinctTasks(tasks) && task in tasks
    ensures forall t :: t in tasks && t.taskId == task.taskId ==> t == task
  {
    var i :| 0 <= i < |tasks| && tasks[i] == task;
  }

  lemma BothDistinct(a: seq<PlanTask>, b: seq<PlanTask>)
    requires DistinctTasks(a) && forall i, t :: 0 <= i < |b| && t in a ==> t.taskId != b[i].taskId
    ensures DistinctTasks(a + b) <==> DistinctTasks(b)
  {
    var s := a + b;
    if DistinctTasks(s) {
      forall i, j | 0 <= i < j < |b|
        ensures b[i].taskId != b[j].taskId
      {
        assert s[|a| + i] == b[i] && s[|a| + j] == b[j];
      }
    }
  }

  /** The tasks after the completed ones all come from the previous plan or are new, and there is at least one. */
  lemma RevisedTasks(previous: Plan, proposals: seq<TaskProposal>, revised: seq<PlanTask>, asTaskId: string -> Id, first: Id)
    requires |revised| == |proposals| > 0
    requires forall i :: 0 <= i < |revised| ==> Materialised(proposals[i], revised[i], TaskMap(previous.tasks), asTaskId, first)
    ensures forall t :: t in revised ==> t.status != TaskCompleted && FromPrevious(previous, t, first)
    ensures UnfinishedTasks(revised) != []
  {
    forall t | t in revised
      ensures t.status != TaskCompleted && FromPrevious(previous, t, first)
    {
      var i :| 0 <= i < |revised| && revised[i] == t;
      assert Materialised(proposals[i], revised[i], TaskMap(previous.tasks), asTaskId, first);
      if !(t.taskId >= first && t.status == Pending && t.dependsOn == []) {
        var kept := TaskMap(previous.tasks)[asTaskId(proposals[i].taskId.value)];
        assert kept in previous.tasks && kept.taskId == t.taskId;
      }
    }
    assert revised[0] in UnfinishedTasks(revised);
  }
}
