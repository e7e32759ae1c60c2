// src/domain/parse.ts and the two proposal parsers of src/agent/planner.ts:
// what the model must return before it can become a plan.

module Proposals {
  import opened Support
  import opened Json
  import opened Text

  datatype TaskProposal = TaskProposal(taskId: Option<string>, description: string, expectedEvidence: seq<string>)
  datatype PlanProposal = PlanProposal(strategySummary: string, tasks: seq<TaskProposal>, cited: seq<string>)
  datatype RevisionProposal = RevisionProposal(base: PlanProposal, strategyChanged: bool,
                                               changeReason: Option<string>, revisionReason: string)

  type Fields = map<string, Json>

  /** A value together with the validation errors that reading it pushed. */
  datatype Read<T> = Read(value: T, errors: seq<string>)

  predicate HasText(fields: Fields, key: string) {
    key in fields && fields[key].JString? && fields[key].s != ""
  }

  predicate HasOptionalText(fields: Fields, key: string) {
    key in fields ==> fields[key].JString?
  }

  predicate IsTextArray(json: Json) {
    json.JArray? && forall i :: 0 <= i < |json.items| ==> json.items[i].JString?
  }

  function ReadString(fields: Fields, key: string): (r: Read<string>)
    ensures r.errors == [] <==> HasText(fields, key)
    ensures HasText(fields, key) ==> r.value == fields[key].s
  {
    if HasText(fields, key) then Read(fields[key].s, [])
    else Read("", [key + " must be a non-empty string"])
  }

  function ReadOptionalString(fields: Fields, key: string): (r: Read<Option<string>>)
    ensures r.errors == [] <==> HasOptionalText(fields, key)
    ensures r.value.Some? <==> key in fields && fields[key].JString?
    ensures r.value.Some? ==> r.value.value == fields[key].s
  {
    if key !in fields then Read(None, [])
    else if fields[key].JString? then Read(Some(fields[key].s), [])
    else Read(None, [key + " must be a string when present"])
  }

  function Texts(items: seq<Json>): (r: seq<string>)
    requires forall i :: 0 <= i < |items| ==> items[i].JString?
    ensures |r| == |items| && forall i :: 0 <= i < |items| ==> r[i] == items[i].s
  {
    seq(|items|, i requires 0 <= i < |items| && items[i].JString? => items[i].s)
  }

  function ReadStringArray(fields: Fields, key: string, optional: bool): (r: Read<seq<string>>)
    ensures r.errors == [] <==> if key in fields then IsTextArray(fields[key]) else optional
    ensures r.errors == [] && key in fields ==> r.value == Texts(fields[key].items)
    ensures key !in fields ==> r.value == []
  {
    if key !in fields && optional then Read([], [])
    else if key in fields && IsTextArray(fields[key]) then Read(Texts(fields[key].items), [])
    else Read([], [key + " must be an array of strings"])
  }

  function ReadBoolean(fields: Fields, key: string): (r: Read<bool>)
    ensures r.errors == [] <==> key in fields && fields[key].JBool?
    ensures r.errors == [] ==> r.value == fields[key].b
  {
    if key in fields && fields[key].JBool? then Read(fields[key].b, [])
    else Read(false, [key + " must be a boolean"])
  }

  function Prefixed(prefix: string, errors: seq<string>): (r: seq<string>)
    ensures |r| == |errors|
  {
    seq(|errors|, i requires 0 <= i < |errors| => prefix + errors[i])
  }

  // ---------------------------------------------------------- task proposals

  /** What makes one item of `tasks` acceptable. */
  predicate WellFormedTask(item: Json) {
    && item.JObject?
    && HasText(item.fields, "description")
    && "expectedEvidence" in item.fields && IsTextArray(item.fields["expectedEvidence"])
    && HasOptionalText(item.fields, "taskId")
  }

  predicate WellFormedTasks(raw: Option<Json>) {
    && raw.Some? && raw.value.JArray? && raw.value.items != []
    && forall i :: 0 <= i < |raw.value.items| ==> WellFormedTask(raw.value.items[i])
  }

  /** The proposal that a well-formed item denotes; an empty `taskId` counts as none. */
  function TaskOf(item: Json): TaskProposal
    requires WellFormedTask(item)
  {
    TaskProposal(if "taskId" in item.fields && item.fields["taskId"].s != "" then Some(item.fields["taskId"].s) else None,
                 item.fields["description"].s, Texts(item.fields["expectedEvidence"].items))
  }

  /** One turn of the loop: the task that is pushed, if any, and the errors that are. */
  function ReadTask(item: Json, index: nat): (r: (Option<TaskProposal>, seq<string>))
    ensures r.1 == [] <==> WellFormedTask(item)
    ensures r.1 == [] ==> r.0 == Some(TaskOf(item))
  {
    var at := "tasks[" + Decimal(index) + "]";
    if !item.JObject? then (None, [at + " must be an object"])
    else
      var description := ReadString(item.fields, "description");
      var evidence := ReadStringArray(item.fields, "expectedEvidence", false);
      var taskId := ReadOptionalString(item.fields, "taskId");
      var errors := description.errors + evidence.errors + taskId.errors;
      var id := if taskId.value == Some("") then None else taskId.value;
      (Some(TaskProposal(id, description.value, evidence.value)), Prefixed(at + ".", errors))
  }

  function ReadTasks(items: seq<Json>): (r: Read<seq<TaskProposal>>)
    ensures r.errors == [] <==> forall i :: 0 <= i < |items| ==> WellFormedTask(items[i])
    ensures r.errors == [] ==> |r.value| == |items| && forall i :: 0 <= i < |items| ==> r.value[i] == TaskOf(items[i])
  {
    if items == [] then Read([], [])
    else
      var before := ReadTasks(items[..|items| - 1]);
      var (task, errors) := ReadTask(items[|items| - 1], |items| - 1);
      assert errors == [] || before.errors + errors != [];
      Read(if task.Some? then before.value + [task.value] else before.value, before.errors + errors)
  }

  /** The loop that pushes tasks and errors side by side. */
  method ParseTaskProposals(raw: Option<Json>) returns (tasks: seq<TaskProposal>, errors: seq<string>)
    ensures Read(tasks, errors) == TaskProposals(raw)
    ensures errors == [] <==> WellFormedTasks(raw)
  {
    tasks, errors := [], [];
    if raw.None? || !raw.value.JArray? || raw.value.items == [] {
      errors := ["tasks must be a non-empty array"];
      return;
    }
    var items := raw.value.items;
    for i := 0 to |items|
      invariant Read(tasks, errors) == ReadTasks(items[..i])
    {
      assert items[..i + 1][..i] == items[..i];
      var (task, taskErrors) := ReadTask(items[i], i);
      errors := errors + taskErrors;
      if task.Some? {
        tasks := tasks + [task.value];
      }
    }
    assert items[..|items|] == items;
  }

  function TaskProposals(raw: Option<Json>): (r: Read<seq<TaskProposal>>)
    ensures r.errors == [] <==> WellFormedTasks(raw)
    ensures r.errors == [] ==> |r.value| == |raw.value.items| && r.value != []
  {
    if raw.None? || !raw.value.JArray? || raw.value.items == [] then Read([], ["tasks must be a non-empty array"])
    else ReadTasks(raw.value.items)
  }

  // -------------------------------------------------------- plans and revisions

  predicate WellFormedPlan(raw: Json) {
    && raw.JObject?
    && HasText(raw.fields, "strategySummary")
    && WellFormedTasks(Field(raw.fields, "tasks"))
    && ("citedMemoryRecordIds" in raw.fields ==> IsTextArray(raw.fields["citedMemoryRecordIds"]))
  }

  function ParsePlanProposal(raw: Json): (r: Result<PlanProposal, seq<string>>)
    ensures r.Ok? <==> WellFormedPlan(raw)
    ensures r.Ok? ==> raw.fields["strategySummary"] == JString(r.value.strategySummary)
    ensures r.Ok? ==> r.value.cited == if "citedMemoryRecordIds" in raw.fields then Texts(raw.fields["citedMemoryRecordIds"].items) else []
    ensures r.Ok? ==>
              && |r.value.tasks| == |raw.fields["tasks"].items| > 0
              && forall i :: 0 <= i < |r.value.tasks| ==> r.value.tasks[i] == TaskOf(raw.fields["tasks"].items[i])
  {
    if !raw.JObject? then Err(["plan must be an object"])
    else
      var summary := ReadString(raw.fields, "strategySummary");
      var tasks := TaskProposals(Field(raw.fields, "tasks"));
      var cited := ReadStringArray(raw.fields, "citedMemoryRecordIds", true);
      var errors := summary.errors + tasks.errors + cited.errors;
      if errors != [] then Err(errors)
      else Ok(PlanProposal(summary.value, tasks.value, cited.value))
  }

  predicate WellFormedRevision(raw: Json) {
    && WellFormedPlan(raw)
    && "strategyChanged" in raw.fields && raw.fields["strategyChanged"].JBool?
    && HasOptionalText(raw.fields, "changeReason")
    && HasText(raw.fields, "revisionReason")
    && (raw.fields["strategyChanged"].b ==> HasText(raw.fields, "changeReason"))
  }

  function ParseRevisionProposal(raw: Json): (r: Result<RevisionProposal, seq<string>>)
    ensures r.Ok? <==> WellFormedRevision(raw)
    ensures r.Ok? ==> ParsePlanProposal(raw) == Ok(r.value.base) && |r.value.base.tasks| > 0
    ensures r.Ok? ==> r.value.strategyChanged == raw.fields["strategyChanged"].b
    ensures r.Ok? ==> raw.fields["revisionReason"] == JString(r.value.revisionReason)
    ensures r.Ok? && r.value.changeReason.Some? ==> Field(raw.fields, "changeReason") == Some(JString(r.value.changeReason.value))
    ensures r.Ok? && r.value.strategyChanged ==> r.value.changeReason.Some? && r.value.changeReason.value != ""
  {
    var base := ParsePlanProposal(raw);
    if base.Err? then Err(base.error)
    else
      var changed := ReadBoolean(raw.fields, "strategyChanged");
      var changeReason := ReadOptionalString(raw.fields, "changeReason");
      var revisionReason := ReadString(raw.fields, "revisionReason");
      var missing := changeReason.value.None? || changeReason.value == Some("");
      var errors := changed.errors + changeReason.errors + revisionReason.errors
                    + if changed.value && missing then ["changeReason is required when strategyChanged"] else [];
      if errors != [] then Err(errors)
      else Ok(RevisionProposal(base.value, changed.value, if missing then None else changeReason.value, revisionReason.value))
  }

  // ------------------------------------------------------------------ round trips

  function TextsJson(texts: seq<string>): (r: Json)
    ensures IsTextArray(r) && Texts(r.items) == texts
  {
    var items := seq(|texts|, i requires 0 <= i < |texts| => JString(texts[i]));
    assert Texts(items) == texts;
    JArray(items)
  }

  function TaskJson(task: TaskProposal): Json {
    var fields := map["description" := JString(task.description), "expectedEvidence" := TextsJson(task.expectedEvidence)];
    JObject(if task.taskId.Some? then fields["taskId" := JString(task.taskId.value)] else fields)
  }

  function TasksJson(tasks: seq<TaskProposal>): Json {
    JArray(seq(|tasks|, i requires 0 <= i < |tasks| => TaskJson(tasks[i])))
  }

  function PlanFields(plan: PlanProposal): Fields {
    map["strategySummary" := JString(plan.strategySummary), "tasks" := TasksJson(plan.tasks),
        "citedMemoryRecordIds" := TextsJson(plan.cited)]
  }

  function RevisionFields(revision: RevisionProposal): Fields {
    var fields := PlanFields(revision.base)["strategyChanged" := JBool(revision.strategyChanged)]
                                           ["revisionReason" := JString(revision.revisionReason)];
    if revision.changeReason.Some? then fields["changeReason" := JString(revision.changeReason.value)] else fields
  }

  predicate Sayable(plan: PlanProposal) {
    && plan.strategySummary != "" && plan.tasks != []
    && forall i :: 0 <= i < |plan.tasks| ==> plan.tasks[i].description != "" && plan.tasks[i].taskId != Some("")
  }

  lemma TaskReadsBack(task: TaskProposal)
    requires task.description != "" && task.taskId != Some("")
    ensures WellFormedTask(TaskJson(task)) && TaskOf(TaskJson(task)) == task
  {
  }

  /** Every plan that can be said at all is read as it was said. */
  lemma PlanRoundTrip(plan: PlanProposal, fields: Fields)
    requires Sayable(plan) && forall key :: key in PlanFields(plan) ==> key in fields && fields[key] == PlanFields(plan)[key]
    ensures ParsePlanProposal(JObject(fields)) == Ok(plan)
  {
    var items := TasksJson(plan.tasks).items;
    assert "strategySummary" in PlanFields(plan) && "tasks" in PlanFields(plan) && "citedMemoryRecordIds" in PlanFields(plan);
    forall i | 0 <= i < |items|
      ensures WellFormedTask(items[i]) && TaskOf(items[i]) == plan.tasks[i]
    {
      TaskReadsBack(plan.tasks[i]);
    }
    var parsed := ParsePlanProposal(JObject(fields));
    assert parsed.Ok? && parsed.value.tasks == plan.tasks;
  }

  /** The fields of a revision besides those of its plan. */
  ghost predicate SaysRevision(fields: Fields, revision: RevisionProposal) {
    && Field(fields, "strategyChanged") == Some(JBool(revision.strategyChanged))
    && Field(fields, "revisionReason") == Some(JString(revision.revisionReason))
    && Field(fields, "changeReason") == if revision.changeReason.Some? then Some(JString(revision.changeReason.value)) else None
  }

  lemma FieldsSayRevision(revision: RevisionProposal)
    ensures SaysRevision(RevisionFields(revision), revision)
    ensures forall key :: key in PlanFields(revision.base) ==>
              key in RevisionFields(revision) && RevisionFields(revision)[key] == PlanFields(revision.base)[key]
  {
  }

  lemma RevisionReadsBack(revision: RevisionProposal, fields: Fields)
    requires ParsePlanProposal(JObject(fields)) == Ok(revision.base) && SaysRevision(fields, revision)
    requires revision.revisionReason != "" && revision.changeReason != Some("")
    requires revision.strategyChanged ==> revision.changeReason.Some?
    ensures ParseRevisionProposal(JObject(fields)) == Ok(revision)
  {
  }

  /** And so is every revision. */
  lemma RevisionRoundTrip(revision: RevisionProposal)
    requires Sayable(revision.base) && revision.revisionReason != "" && revision.changeReason != Some("")
    requires revision.strategyChanged ==> revision.changeReason.Some?
    ensures ParseRevisionProposal(JObject(RevisionFields(revision))) == Ok(revision)
  {
    FieldsSayRevision(revision);
    PlanRoundTrip(revision.base, RevisionFields(revision));
    RevisionReadsBack(revision, RevisionFields(revision));
  }
}
