// src/evaluation/verdict.ts and src/evaluation/deterministic-evaluator.ts: the
// mechanical checks and the verdict they decide.

module Evaluation {
  import opened Support
  import opened Events
  import opened Sessions
  import opened Json
  import opened Text
  import opened Criteria

  /** Decisive checks only; none at all is inconclusive, a mix is partial. */
  function VerdictFromDecisive(passed: int, total: int): Verdict {
    if total <= 0 then Inconclusive
    else if passed == total then Success
    else if passed == 0 then Failure
    else Partial
  }

  datatype Check = Check(passed: bool, decisive: bool, evidence: string)

  datatype EvaluationResult = EvaluationResult(evaluationId: Id, verdict: Verdict, checks: seq<Check>, gaps: seq<string>,
                                               summary: string, toolStatus: ToolStatus, evaluatorName: string)

  /** What the sandbox would answer at one moment. */
  datatype World = World(files: map<string, string>, exitCode: string -> Option<int>)

  /** The library's `JSON.parse`; `None` is a syntax error. */
  type JsonParser = string -> Option<Json>

  /** What every parsed object inherits from `Object.prototype`. */
  const INHERITED_NAMES: set<string> := {
    "__defineGetter__", "__defineSetter__", "__lookupGetter__", "__lookupSetter__", "__proto__", "constructor",
    "hasOwnProperty", "isPrototypeOf", "propertyIsEnumerable", "toLocaleString", "toString", "valueOf"
  }

  /** `key in parsed`, which also finds inherited names. */
  predicate HasKeys(json: Option<Json>, keys: seq<string>) {
    json.Some? &&
    (keys == [] || (json.value.JObject? && forall k :: k in keys ==> k in json.value.fields || k in INHERITED_NAMES))
  }

  /** The keys are in the file. */
  predicate OwnsKeys(json: Option<Json>, keys: seq<string>) {
    json.Some? && (keys == [] || (json.value.JObject? && forall k :: k in keys ==> k in json.value.fields))
  }

  /**
   * The check of a JSON file finds exactly the keys that are in the file if and
   * only if none of the required keys is an inherited name.
   */
  lemma KeysAreTheFiles(keys: seq<string>)
    ensures (forall json :: HasKeys(json, keys) <==> OwnsKeys(json, keys)) <==> forall k :: k in keys ==> k !in INHERITED_NAMES
  {
    var inherited := INHERITED_NAMES;
    if k :| k in keys && k in inherited {
      var others := set x | x in keys && x !in inherited;
      var json := Some(JObject(map x | x in others :: JNull));
      assert HasKeys(json, keys) && !OwnsKeys(json, keys);
    }
  }

  /** Without an answer of the sandbox: no file, and no command exits. */
  const NO_WORLD := World(map[], (command: string) => None)

  predicate NeedsSandbox(c: Criterion) {
    !c.HttpStatus? && !c.ToolSucceeded?
  }

  /** The criterion needs the environment, and the environment fails. */
  predicate Stuck(c: Criterion, world: Option<World>) {
    NeedsSandbox(c) && world.None?
  }

  /** When a criterion holds of the latest observation and the sandbox. */
  predicate Holds(c: Criterion, world: World, observations: seq<Observation>, parseJson: JsonParser) {
    match c
    case FileExists(path) => path in world.files
    case FileContains(path, marker) => path in world.files && IndexOf(world.files[path], marker).Some?
    case JsonFile(path, keys) => path in world.files && HasKeys(parseJson(world.files[path]), keys.GetOr([]))
    case CommandExitsZero(command) => world.exitCode(command) == Some(0)  // `None`: no exit code, or timed out
    case HttpStatus(status) =>
      observations != [] &&
      var last := observations[|observations| - 1].toolResult;
      last.status == ToolOk && last.httpStatus == Some(status as real)
    case ToolSucceeded(toolName) =>
      observations != [] &&
      var last := observations[|observations| - 1].toolResult;
      last.status == ToolOk && (toolName.None? || last.toolName == toolName.value)
  }

  function DecisivePassed(checks: seq<Check>): nat {
    if checks == [] then 0
    else DecisivePassed(checks[..|checks| - 1]) +
         if checks[|checks| - 1].decisive && checks[|checks| - 1].passed then 1 else 0
  }

  function DecisiveTotal(checks: seq<Check>): nat {
    if checks == [] then 0
    else DecisiveTotal(checks[..|checks| - 1]) + if checks[|checks| - 1].decisive then 1 else 0
  }

  function FailedEvidence(checks: seq<Check>): seq<string> {
    if checks == [] then []
    else
      var before, last := FailedEvidence(checks[..|checks| - 1]), checks[|checks| - 1];
      if last.decisive && !last.passed then before + [last.evidence] else before
  }

  /** The check list records one diagnostic check and then one decisive check per outcome. */
  ghost predicate Records(checks: seq<Check>, held: seq<bool>) {
    && |checks| == |held| + 1 && !checks[0].decisive
    && forall i :: 1 <= i < |checks| ==> checks[i].decisive && checks[i].passed == held[i - 1]
  }

  /** The decisive checks are named after their criteria. */
  ghost predicate Named(checks: seq<Check>, criteria: seq<Criterion>) {
    |checks| == |criteria| + 1 && forall i :: 0 <= i < |criteria| ==> checks[i + 1].evidence == Format(criteria[i])
  }

  /** So far: the status check came first, and the checks record the first `i` criteria with their outcomes. */
  ghost predicate RecordsFirst(checks: seq<Check>, status: Check, criteria: seq<Criterion>, outcomes: seq<bool>, i: nat)
    requires i <= |outcomes| == |criteria|
  {
    forall k {:trigger outcomes[..k]} :: k == i ==>
      Records(checks, outcomes[..k]) && Named(checks, criteria[..k]) && checks[0] == status
  }

  lemma StatusCheck(status: Check, criteria: seq<Criterion>, outcomes: seq<bool>)
    requires !status.decisive && |outcomes| == |criteria|
    ensures RecordsFirst([status], status, criteria, outcomes, 0)
  {
  }

  /** One more criterion was checked, and the checks record one more outcome. */
  lemma OneMoreCheck(checks: seq<Check>, status: Check, check: Check, criteria: seq<Criterion>, outcomes: seq<bool>, i: nat)
    requires i < |outcomes| == |criteria| && RecordsFirst(checks, status, criteria, outcomes, i)
    requires check.decisive && check.passed == outcomes[i] && check.evidence == Format(criteria[i])
    ensures RecordsFirst(checks + [check], status, criteria, outcomes, i + 1)
  {
    assert outcomes[..i] + [check.passed] == outcomes[..i + 1];
    assert criteria[..i] + [criteria[i]] == criteria[..i + 1];
  }

  lemma AllChecked(checks: seq<Check>, status: Check, criteria: seq<Criterion>, outcomes: seq<bool>)
    requires |outcomes| == |criteria| && RecordsFirst(checks, status, criteria, outcomes, |outcomes|)
    ensures Records(checks, outcomes) && Named(checks, criteria) && checks[0] == status
  {
    assert outcomes[..|outcomes|] == outcomes && criteria[..|criteria|] == criteria;
  }

  /** Success: there are criteria and all hold. Failure: there are some and none holds. Inconclusive: there are none. */
  predicate Decides(held: seq<bool>, v: Verdict) {
    && (v == Inconclusive <==> held == [])
    && (v == Success <==> held != [] && false !in held)
    && (v == Failure <==> held != [] && true !in held)
  }

  lemma {:induction false} CountsOfChecks(checks: seq<Check>, held: seq<bool>)
    requires Records(checks, held)
    ensures DecisiveTotal(checks) == |held| && DecisivePassed(checks) <= |held|
    ensures DecisivePassed(checks) == |held| <==> false !in held
    ensures DecisivePassed(checks) == 0 <==> true !in held
    ensures FailedEvidence(checks) == [] <==> false !in held
  {
    var init := checks[..|checks| - 1];
    if held == [] {
      assert init == [];
    } else {
      var before, last := held[..|held| - 1], held[|held| - 1];
      CountsOfChecks(init, before);
      assert held == before + [last];
    }
  }

  /** The criteria that did not hold, by name and in order. */
  function FailedNames(criteria: seq<Criterion>, held: seq<bool>): seq<string>
    requires |held| == |criteria|
  {
    if held == [] then []
    else
      var n := |held| - 1;
      FailedNames(criteria[..n], held[..n]) + if held[n] then [] else [Format(criteria[n])]
  }

  lemma {:induction false} EvidenceOfFailed(checks: seq<Check>, criteria: seq<Criterion>, held: seq<bool>)
    requires |held| == |criteria| && Records(checks, held) && Named(checks, criteria)
    ensures FailedEvidence(checks) == FailedNames(criteria, held)
  {
    if held == [] {
      assert checks[..0] == [];
    } else {
      var n := |held| - 1;
      assert checks[..|checks| - 1] == checks[..n + 1];
      EvidenceOfFailed(checks[..n + 1], criteria[..n], held[..n]);
      assert checks[n + 1].evidence == Format(criteria[n]);
    }
  }

  lemma VerdictMeaning(checks: seq<Check>, held: seq<bool>)
    requires Records(checks, held)
    ensures Decides(held, VerdictFromDecisive(DecisivePassed(checks), DecisiveTotal(checks)))
  {
    CountsOfChecks(checks, held);
    assert held != [] ==> held[0] in held;
  }

  function LatestStatus(observations: seq<Observation>): ToolStatus {
    if observations == [] then NoTool else observations[|observations| - 1].toolResult.status
  }

  /** Some criterion of the goal can be checked mechanically. */
  predicate HasMechanicalCriterion(structured: seq<Criterion>, prose: seq<string>, number: NumberFn) {
    structured != [] || exists i :: 0 <= i < |prose| && Parse(prose[i], number).Some?
  }

  class DeterministicEvaluator {
    const session: RunSession
    const structured: seq<Criterion>   // goal.verifiableCriteria
    const prose: seq<string>           // goal.successCriteria
    const number: NumberFn
    const parseJson: JsonParser

    constructor (session: RunSession, structured: seq<Criterion>, prose: seq<string>, number: NumberFn, parseJson: JsonParser)
      ensures this.session == session && this.structured == structured && this.prose == prose
      ensures this.number == number && this.parseJson == parseJson
    {
      this.session, this.structured, this.prose, this.number, this.parseJson := session, structured, prose, number, parseJson;
    }

    ghost function AllCriteria(): seq<Criterion> {
      structured + Parsed(prose, number)
    }

    /** The i-th criterion, judged in the world that `sandbox(i)` shows. */
    predicate HoldsAt(criteria: seq<Criterion>, observations: seq<Observation>, sandbox: nat -> Option<World>, i: nat)
      requires i < |criteria|
    {
      Holds(criteria[i], sandbox(i).GetOr(NO_WORLD), observations, parseJson)
    }

    /** The environment answers every check that needs it. */
    ghost predicate SandboxAnswers(sandbox: nat -> Option<World>) {
      forall i: nat :: i < |AllCriteria()| ==> !Stuck(AllCriteria()[i], sandbox(i))
    }

    /** The verdict is the right one on these observations, given what the sandbox answers. */
    ghost predicate Decided(observations: seq<Observation>, sandbox: nat -> Option<World>, v: Verdict) {
      SandboxAnswers(sandbox) && Decides(Outcomes(AllCriteria(), observations, sandbox), v)
    }

    /** There are criteria, and every one of them holds. */
    ghost predicate AllHold(observations: seq<Observation>, sandbox: nat -> Option<World>) {
      && SandboxAnswers(sandbox) && AllCriteria() != []
      && forall i: nat :: i < |AllCriteria()| ==> HoldsAt(AllCriteria(), observations, sandbox, i)
    }

    lemma SuccessMeansAllHold(observations: seq<Observation>, sandbox: nat -> Option<World>)
      ensures Decided(observations, sandbox, Success) <==> AllHold(observations, sandbox)
    {
      var held := Outcomes(AllCriteria(), observations, sandbox);
      forall i: nat | i < |held|
        ensures held[i] == HoldsAt(AllCriteria(), observations, sandbox, i)
      {
      }
      if Decided(observations, sandbox, Success) {
        forall i: nat | i < |AllCriteria()|
          ensures HoldsAt(AllCriteria(), observations, sandbox, i)
        {
          assert held[i] in held;
        }
      }
      assert held != [] ==> held[0] in held;
    }

    /** Which criteria hold, one by one. */
    ghost function Outcomes(criteria: seq<Criterion>, observations: seq<Observation>, sandbox: nat -> Option<World>): (held: seq<bool>)
      ensures |held| == |criteria|
    {
      seq(|criteria|, i requires 0 <= i < |criteria| => HoldsAt(criteria, observations, sandbox, i))
    }

    /** Runs the criteria in order; an environment that fails ends the evaluation. */
    method RunCriteria(criteria: seq<Criterion>, observations: seq<Observation>, sandbox: nat -> Option<World>)
      returns (r: Option<seq<Check>>)
      ensures r.None? <==> exists i :: 0 <= i < |criteria| && Stuck(criteria[i], sandbox(i))
      ensures r.Some? ==> Records(r.value, Outcomes(criteria, observations, sandbox))
      ensures r.Some? ==> r.value[0].passed == (LatestStatus(observations) == ToolOk) && Named(r.value, criteria)
    {
      var status := Check(LatestStatus(observations) == ToolOk, false, "tool status");
      var checks := [status];
      ghost var outcomes := Outcomes(criteria, observations, sandbox);
      StatusCheck(status, criteria, outcomes);
      for i := 0 to |criteria|
        invariant RecordsFirst(checks, status, criteria, outcomes, i)
        invariant forall k :: 0 <= k < i ==> !Stuck(criteria[k], sandbox(k))
      {
        var check := RunCriterion(criteria[i], observations, sandbox(i));
        if check.None? {
          return None;
        }
        OneMoreCheck(checks, status, check.value, criteria, outcomes, i);
        checks := checks + [check.value];
      }
      AllChecked(checks, status, criteria, outcomes);
      r := Some(checks);
    }

    /** One check; `None` when the environment fails. */
    method RunCriterion(criterion: Criterion, observations: seq<Observation>, sandbox: Option<World>) returns (check: Option<Check>)
      ensures check.None? <==> Stuck(criterion, sandbox)
      ensures check.Some? ==> check.value.decisive && check.value.evidence == Format(criterion)
                              && check.value.passed == Holds(criterion, sandbox.GetOr(NO_WORLD), observations, parseJson)
    {
      if NeedsSandbox(criterion) && sandbox.None? {
        return None;
      }
      var world := sandbox.GetOr(NO_WORLD);
      var passed := false;
      match criterion {
        case FileExists(path) =>
          passed := path in world.files;
        case FileContains(path, marker) =>
          if path in world.files {
            passed := IndexOf(world.files[path], marker).Some?;
          }
        case JsonFile(path, keys) =>
          if path in world.files {
            passed := RequiredKeysPresent(parseJson(world.files[path]), keys);
          }
        case CommandExitsZero(command) =>
          var exitCode := world.exitCode(command);
          passed := exitCode.Some? && exitCode.value == 0;
        case HttpStatus(expected) =>
          var status := LatestHttpStatus(observations);
          passed := status.Some? && status.value == expected as real;
        case ToolSucceeded(toolName) =>
          if observations != [] {
            var last := observations[|observations| - 1].toolResult;
            var nameOk := toolName.None? || last.toolName == toolName.value;
            passed := nameOk && last.status == ToolOk;
          }
      }
      check := Some(Check(passed, true, Format(criterion)));
    }

    /** No keys asked for: any JSON will do. Otherwise it must be an object that misses none of them. */
    method RequiredKeysPresent(parsed: Option<Json>, requiredKeys: Option<seq<string>>) returns (passed: bool)
      ensures passed == HasKeys(parsed, requiredKeys.GetOr([]))
    {
      if parsed.None? {
        return false;
      }
      if requiredKeys.None? || requiredKeys.value == [] {
        return true;
      }
      if !parsed.value.JObject? {
        return false;
      }
      var missing: seq<string> := [];
      var keys := requiredKeys.value;
      for i := 0 to |keys|
        invariant missing == [] <==> forall k :: k in keys[..i] ==> k in parsed.value.fields || k in INHERITED_NAMES
      {
        assert keys[..i + 1] == keys[..i] + [keys[i]];
        if keys[i] !in parsed.value.fields && keys[i] !in INHERITED_NAMES {
          missing := missing + [keys[i]];
        }
      }
      assert keys[..|keys|] == keys;
      passed := missing == [];
    }

    /** The numeric status in the latest observation, if its tool succeeded. */
    method LatestHttpStatus(observations: seq<Observation>) returns (status: Option<real>)
      ensures forall x :: status == Some(x) <==>
                observations != [] && var last := observations[|observations| - 1].toolResult;
                last.status == ToolOk && last.httpStatus == Some(x)
    {
      if observations == [] {
        return None;
      }
      var last := observations[|observations| - 1].toolResult;
      status := if last.status == ToolOk then last.httpStatus else None;
    }

    /**
     * `sandbox(i)` answers the i-th check, `None` when the environment fails.
     * The verdict says exactly which of the criteria held.
     */
    method Evaluate(observations: seq<Observation>, sandbox: nat -> Option<World>) returns (r: Option<EvaluationResult>)
      modifies session`nextId
      ensures session.nextId >= old(session.nextId)
      ensures r.None? <==> !SandboxAnswers(sandbox)
      ensures r.Some? ==> Decided(observations, sandbox, r.value.verdict)
      ensures r.Some? ==> r.value.checks != [] && !r.value.checks[0].decisive
                          && r.value.checks[0].passed == (LatestStatus(observations) == ToolOk)
      ensures r.Some? ==> r.value.toolStatus == LatestStatus(observations) && r.value.evaluatorName == "deterministic"
      ensures r.Some? ==>
                r.value.gaps == (if AllCriteria() == [] then [NO_CRITERION] else [])
                                + FailedNames(AllCriteria(), Outcomes(AllCriteria(), observations, sandbox))
                                + UncheckedGaps(Unparsed(prose, number))
      ensures r.Some? && r.value.verdict == Success ==> r.value.gaps == UncheckedGaps(Unparsed(prose, number))
      ensures r.Some? && r.value.verdict != Success ==> r.value.gaps != []
    {
      var criteria, uncheckedProse := CollectCriteria(structured, prose, number);
      var run := RunCriteria(criteria, observations, sandbox);
      if run.None? {
        return None;
      }
      var checks := run.value;
      CountsOfChecks(checks, Outcomes(criteria, observations, sandbox));
      VerdictMeaning(checks, Outcomes(criteria, observations, sandbox));
      EvidenceOfFailed(checks, criteria, Outcomes(criteria, observations, sandbox));
      var passed, total := DecisivePassed(checks), DecisiveTotal(checks);
      var verdict := VerdictFromDecisive(passed, total);
      var gaps := FailedEvidence(checks) + UncheckedGaps(uncheckedProse);
      if total == 0 {
        gaps := [NO_CRITERION] + gaps;
      }
      var id := session.NextId();
      r := Some(EvaluationResult(id, verdict, checks, gaps, Decimal(passed) + "/" + Decimal(total) + " decisive checks passed",
                                 LatestStatus(observations), "deterministic"));
    }
  }

  const NO_CRITERION := "no mechanically verifiable success criterion was configured"

  function UncheckedGaps(prose: seq<string>): seq<string> {
    seq(|prose|, i requires 0 <= i < |prose| => "not mechanically verifiable: " + prose[i])
  }

  /** The evaluator is inconclusive exactly when the goal has no mechanical criterion, whatever tools and sandbox say. */
  lemma InconclusiveIffNoCriterion(e: DeterministicEvaluator, observations: seq<Observation>, sandbox: nat -> Option<World>, v: Verdict)
    requires Decides(e.Outcomes(e.AllCriteria(), observations, sandbox), v)
    ensures v == Inconclusive <==> !HasMechanicalCriterion(e.structured, e.prose, e.number)
  {
    NothingParsed(e.prose, e.number);
  }
}
