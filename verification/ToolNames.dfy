// ToolNameMap and the reading of completions in
// src/models/openai-compatible/wire.ts (lines 153-184, 474-580).

module ToolNames {
  import opened Support
  import opened Text
  import opened Json
  import opened Models
  import opened Sets
  import Proposals

  // ------------------------------------------------------------------- wire names

  /** The class `[A-Za-z0-9_-]`. */
  predicate IsWireChar(c: char) {
    IsAlphanumeric(c) || c == '_' || c == '-'
  }

  predicate IsWireName(s: string) {
    forall i :: 0 <= i < |s| ==> IsWireChar(s[i])
  }

  /** Every other character replaced by two underscores. */
  function Sanitised(name: string): (wire: string)
    ensures IsWireName(wire) && (IsWireName(name) ==> wire == name)
  {
    if name == "" then "" else (if IsWireChar(name[0]) then [name[0]] else ['_', '_']) + Sanitised(name[1..])
  }

  /** The k-th name tried: the sanitised name, then with `_2`, `_3`, … */
  function Candidate(base: string, k: nat): string
    requires k >= 1
  {
    if k == 1 then base else base + ['_'] + Decimal(k)
  }

  lemma CandidateIsWireName(name: string, k: nat)
    requires k >= 1
    ensures IsWireName(Candidate(Sanitised(name), k))
  {
  }

  lemma CandidatesDiffer(base: string, j: nat, k: nat)
    requires 1 <= j < k
    ensures Candidate(base, j) != Candidate(base, k)
  {
    if j == 1 {
      assert |Candidate(base, k)| > |base|;
    } else {
      var prefix := base + ['_'];
      assert Candidate(base, j)[|prefix|..] == Decimal(j) && Candidate(base, k)[|prefix|..] == Decimal(k);
      if Decimal(j) == Decimal(k) {
        DecimalInjective(j, k);
      }
    }
  }

  predicate Distinct(names: seq<string>) {
    forall i, j :: 0 <= i < j < |names| ==> names[i] != names[j]
  }

  /** Some wire name stands for a name that has another one: the map is not a bijection. */
  ghost predicate HasStray(toWire: map<string, string>, fromWire: map<string, string>) {
    exists w :: w in fromWire && (fromWire[w] !in toWire || toWire[fromWire[w]] != w)
  }

  ghost predicate FromCandidates(fromWire: map<string, string>) {
    forall w :: w in fromWire ==> IsCandidateOf(w, fromWire[w])
  }

  ghost predicate IsCandidateOf(wire: string, name: string) {
    exists k: nat :: k >= 1 && wire == Candidate(Sanitised(name), k)
  }

  /** What the two maps say about the names they were built from. */
  ghost predicate Maps(names: seq<string>, toWire: map<string, string>, fromWire: map<string, string>) {
    && (forall n :: n in toWire <==> n in names)
    && (forall n :: n in toWire ==> toWire[n] in fromWire && fromWire[toWire[n]] == n)
    && (forall w :: w in fromWire ==> fromWire[w] in names && IsWireName(w))
    && FromCandidates(fromWire)
    && (HasStray(toWire, fromWire) <==> !Distinct(names))
  }

  class ToolNameMap {
    var toWire: map<string, string>
    var fromWire: map<string, string>

    /**
     * The names are added in order. Each gets a wire name of its own, made of wire
     * characters; the two maps are inverse to each other if and only if no name
     * is given twice.
     */
    constructor (names: seq<string>)
      ensures Maps(names, toWire, fromWire)
    {
      toWire, fromWire := map[], map[];
      new;
      for i := 0 to |names|
        invariant Maps(names[..i], toWire, fromWire)
      {
        assert names[..i + 1] == names[..i] + [names[i]];
        Add(names[..i], names[i]);
      }
      assert names[..|names|] == names;
    }

    /** One turn of the constructor's loop. */
    method Add(ghost names: seq<string>, name: string)
      requires Maps(names, toWire, fromWire)
      modifies this
      ensures Maps(names + [name], toWire, fromWire)
    {
      var wire := FreshWire(name);
      FirstIsCandidate(fromWire.Keys, name, wire);
      NameMapped(names, toWire, fromWire, name, wire);
      toWire := toWire[name := wire];
      fromWire := fromWire[wire := name];
    }

    /** The first candidate that no name has yet; one of the first `|fromWire| + 1` is free. */
    method FreshWire(name: string) returns (wire: string)
      ensures wire !in fromWire && FirstFree(fromWire.Keys, Sanitised(name), wire)
    {
      var base := Sanitised(name);
      wire := base;
      var suffix := 1;
      ghost var tried: set<string> := {};
      while wire in fromWire
        invariant suffix >= 1 && wire == Candidate(base, suffix) && Tried(fromWire.Keys, base, suffix, tried)
        decreases |fromWire.Keys - tried|
      {
        tried := TryNext(fromWire.Keys, base, suffix, tried);
        suffix := suffix + 1;
        wire := base + ['_'] + Decimal(suffix);
      }
      FreeFound(fromWire.Keys, base, suffix, tried);
    }

    function WireName(name: string): Option<string>
      reads this
    {
      if name in toWire then Some(toWire[name]) else None
    }

    function OriginalName(wire: string): Option<string>
      reads this
    {
      if wire in fromWire then Some(fromWire[wire]) else None
    }
  }

  ghost predicate FirstFree(taken: set<string>, base: string, wire: string) {
    exists k: nat :: IsFirst(taken, base, wire, k)
  }

  ghost predicate IsFirst(taken: set<string>, base: string, wire: string, k: nat) {
    && 1 <= k <= |taken| + 1 && wire == Candidate(base, k)
    && forall j :: 1 <= j < k ==> Candidate(base, j) in taken
  }

  /** The candidates before `suffix`, which are all taken. */
  ghost predicate Tried(taken: set<string>, base: string, suffix: nat, tried: set<string>) {
    && |tried| == suffix - 1 && tried <= taken
    && (forall t :: t in tried ==> exists j: nat :: 1 <= j < suffix && t == Candidate(base, j))
    && (forall j: nat :: 1 <= j < suffix ==> Candidate(base, j) in tried)
  }

  lemma CandidateIsNew(base: string, suffix: nat, tried: set<string>)
    requires suffix >= 1
    requires forall t :: t in tried ==> exists j: nat :: 1 <= j < suffix && t == Candidate(base, j)
    ensures Candidate(base, suffix) !in tried
  {
    if Candidate(base, suffix) in tried {
      var j: nat :| 1 <= j < suffix && Candidate(base, suffix) == Candidate(base, j);
      CandidatesDiffer(base, j, suffix);
      assert false;
    }
  }

  /** Every turn uses up one taken name, so there are only finitely many. */
  lemma TryNext(taken: set<string>, base: string, suffix: nat, tried: set<string>) returns (next: set<string>)
    requires suffix >= 1 && Tried(taken, base, suffix, tried) && Candidate(base, suffix) in taken
    ensures Tried(taken, base, suffix + 1, next) && |taken - next| < |taken - tried|
  {
    var wire := Candidate(base, suffix);
    CandidateIsNew(base, suffix, tried);
    next := tried + {wire};
    assert taken - next == (taken - tried) - {wire};
    forall t | t in next
      ensures exists j: nat :: 1 <= j < suffix + 1 && t == Candidate(base, j)
    {
      if t in tried {
        var j: nat :| 1 <= j < suffix && t == Candidate(base, j);
      }
    }
  }

  lemma FreeFound(taken: set<string>, base: string, suffix: nat, tried: set<string>)
    requires suffix >= 1 && Tried(taken, base, suffix, tried)
    ensures FirstFree(taken, base, Candidate(base, suffix))
  {
    SubsetSize(tried, taken);
    assert IsFirst(taken, base, Candidate(base, suffix), suffix);
  }

  lemma FirstIsCandidate(taken: set<string>, name: string, wire: string)
    requires FirstFree(taken, Sanitised(name), wire)
    ensures IsCandidateOf(wire, name)
  {
    var k: nat :| IsFirst(taken, Sanitised(name), wire, k);
  }

  /** Adding one name under a fresh candidate keeps the picture. */
  lemma NameMapped(names: seq<string>, toWire: map<string, string>, fromWire: map<string, string>, name: string, wire: string)
    requires Maps(names, toWire, fromWire) && wire !in fromWire && IsCandidateOf(wire, name)
    ensures Maps(names + [name], toWire[name := wire], fromWire[wire := name])
  {
    var after, to, from := names + [name], toWire[name := wire], fromWire[wire := name];
    StrayOrNot(names, toWire, fromWire, name, wire);
    var k: nat :| k >= 1 && wire == Candidate(Sanitised(name), k);
    CandidateIsWireName(name, k);
    assert forall n :: n in after <==> n in names || n == name;
    assert Distinct(after) <==> Distinct(names) && name !in names by {
      if name in names {
        var i :| 0 <= i < |names| && names[i] == name;
        assert after[i] == after[|names|];
      } else if !Distinct(names) {
        var i, j :| 0 <= i < j < |names| && names[i] == names[j];
        assert after[i] == after[j];
      }
    }
  }

  lemma StrayOrNot(names: seq<string>, toWire: map<string, string>, fromWire: map<string, string>, name: string, wire: string)
    requires Maps(names, toWire, fromWire) && wire !in fromWire
    ensures HasStray(toWire[name := wire], fromWire[wire := name]) <==> HasStray(toWire, fromWire) || name in names
  {
    var to, from := toWire[name := wire], fromWire[wire := name];
    if HasStray(toWire, fromWire) {
      var w :| w in fromWire && (fromWire[w] !in toWire || toWire[fromWire[w]] != w);
      assert w in from && to[from[w]] != w;
    } else if name in names {
      assert toWire[name] in from && to[from[toWire[name]]] != toWire[name];
    }
  }

  // ------------------------------------------------------------ the reserved names

  const FINISH_TOOL := "finish"
  const GIVE_UP_TOOL := "give_up"

  predicate Reserved(name: string) {
    name == FINISH_TOOL || name == GIVE_UP_TOOL
  }

  predicate DoubledAt(s: string, i: int) {
    0 <= i < |s| - 1 && s[i] == '_' == s[i + 1]
  }

  /** Only a name that changes gets two underscores in a row from the replacement. */
  lemma {:induction false} SanitisedOrDoubled(name: string)
    ensures Sanitised(name) == name || exists i :: DoubledAt(Sanitised(name), i)
  {
    if name != "" {
      var rest := Sanitised(name[1..]);
      SanitisedOrDoubled(name[1..]);
      if !IsWireChar(name[0]) {
        assert DoubledAt(Sanitised(name), 0);
      } else if rest != name[1..] {
        var i :| DoubledAt(rest, i);
        assert DoubledAt(Sanitised(name), i + 1);
      }
    }
  }

  lemma ReservedIsPlain(wire: string)
    requires Reserved(wire)
    ensures !(exists i :: DoubledAt(wire, i)) && wire != "" && !('0' <= wire[|wire| - 1] <= '9')
  {
  }

  /** A reserved wire name belongs to the tool of that very name, or to none. */
  lemma ReservedOnlyFromItself(name: string, wire: string)
    requires Reserved(wire) && IsCandidateOf(wire, name)
    ensures name == wire
  {
    ReservedIsPlain(wire);
    var k: nat :| k >= 1 && wire == Candidate(Sanitised(name), k);
    if k > 1 {
      assert false;
    }
    SanitisedOrDoubled(name);
  }

  // -------------------------------------------------------- reading a completion

  datatype Call = Call(name: string, arguments: string)
  datatype ParsedCompletion = ParsedCompletion(toolCalls: seq<Call>, content: string)

  type Fields = Proposals.Fields

  predicate IsAlternative(item: Json) {
    item.JObject? && Proposals.HasText(item.fields, "description") && Proposals.HasText(item.fields, "whyNot")
  }

  predicate HasAlternatives(fields: Fields) {
    "alternatives" in fields ==>
      && fields["alternatives"].JArray?
      && forall i :: 0 <= i < |fields["alternatives"].items| ==> IsAlternative(fields["alternatives"].items[i])
  }

  predicate HasConfidence(fields: Fields) {
    "confidence" in fields ==> fields["confidence"].JNumber? && 0.0 <= fields["confidence"].n <= 1.0
  }

  /** `None` is a failed parse. */
  function ProposalFromToolCall(toolName: string, args: Json): Option<Proposal> {
    if !args.JObject? then None
    else
      var fields := args.fields;
      if toolName == FINISH_TOOL then
        if Proposals.HasText(fields, "summary") && Proposals.HasText(fields, "rationale")
        then Some(FinishGoal(fields["summary"].s)) else None
      else if toolName == GIVE_UP_TOOL then
        if Proposals.HasText(fields, "reason") then Some(GiveUpGoal(fields["reason"].s)) else None
      else if Proposals.HasText(fields, "rationale") && HasConfidence(fields) && HasAlternatives(fields) && "input" in fields
      then Some(CallTool(toolName, fields["input"], fields["rationale"].s)) else None
  }

  function ParseToolActionProposal(raw: Json, known: seq<string>): Option<Proposal> {
    if !raw.JObject? || !Proposals.HasText(raw.fields, "kind") then None
    else
      var kind := raw.fields["kind"].s;
      if Reserved(kind) then ProposalFromToolCall(kind, raw)
      else if kind == "tool" && Proposals.HasText(raw.fields, "toolName") && raw.fields["toolName"].s in known
      then ProposalFromToolCall(raw.fields["toolName"].s, raw)
      else None
  }

  /** The tool a wire name stands for. */
  function Translated(wire: string, fromWire: map<string, string>): Option<string> {
    if Reserved(wire) then Some(wire)
    else if wire in fromWire then Some(fromWire[wire]) else None
  }

  function ProposalFromCompletion(completion: ParsedCompletion, fromWire: map<string, string>, known: seq<string>,
                                  extractJson: string -> Option<Json>): Option<Proposal>
  {
    if completion.toolCalls != [] then
      var toolName :- Translated(completion.toolCalls[0].name, fromWire);
      var args :- extractJson(completion.toolCalls[0].arguments);
      ProposalFromToolCall(toolName, args)
    else
      var json :- extractJson(completion.content);
      ParseToolActionProposal(json, known)
  }

  predicate WellFormedCall(fields: Fields) {
    Proposals.HasText(fields, "rationale") && HasConfidence(fields) && HasAlternatives(fields) && "input" in fields
  }

  // ------------------------------------------------------------- what is read back

  /** A tool call as the JSON that is asked for. */
  function CallJson(toolName: string, input: Json, rationale: string, confidence: Option<real>, alternatives: seq<(string, string)>): Json {
    JObject(map["kind" := JString("tool"), "toolName" := JString(toolName), "input" := input, "rationale" := JString(rationale),
                "alternatives" := JArray(AlternativesJson(alternatives))]
            + if confidence.Some? then map["confidence" := JNumber(confidence.value)] else map[])
  }

  function AlternativesJson(alternatives: seq<(string, string)>): (items: seq<Json>)
    ensures |items| == |alternatives|
  {
    seq(|alternatives|, i requires 0 <= i < |alternatives| =>
      JObject(map["description" := JString(alternatives[i].0), "whyNot" := JString(alternatives[i].1)]))
  }

  /**
   * A tool call written as JSON is read back as it was if and only if its tool is
   * known and not named like a pseudo-tool, no text in it is empty, and the
   * confidence lies between 0 and 1.
   */
  lemma CallReadsBack(toolName: string, input: Json, rationale: string, confidence: Option<real>,
                      alternatives: seq<(string, string)>, known: seq<string>)
    ensures var sound :=
              && toolName in known && !Reserved(toolName) && toolName != "" && rationale != ""
              && (confidence.Some? ==> 0.0 <= confidence.value && confidence.value <= 1.0)
              && (forall a :: a in alternatives ==> a.0 != "" && a.1 != "");
            ParseToolActionProposal(CallJson(toolName, input, rationale, confidence, alternatives), known)
            == if sound then Some(CallTool(toolName, input, rationale)) else None
  {
    var fields := CallJson(toolName, input, rationale, confidence, alternatives).fields;
    AlternativesReadBack(alternatives, fields);
    KindsDiffer();
  }

  lemma KindsDiffer()
    ensures "tool" != FINISH_TOOL && "tool" != GIVE_UP_TOOL && FINISH_TOOL != GIVE_UP_TOOL
  {
    assert "tool"[0] == 't' && FINISH_TOOL[0] == 'f' && GIVE_UP_TOOL[0] == 'g';
  }

  lemma AlternativesReadBack(alternatives: seq<(string, string)>, fields: Fields)
    requires "alternatives" in fields && fields["alternatives"] == JArray(AlternativesJson(alternatives))
    ensures HasAlternatives(fields) <==> forall a :: a in alternatives ==> a.0 != "" && a.1 != ""
  {
    var items := AlternativesJson(alternatives);
    forall i | 0 <= i < |items|
      ensures IsAlternative(items[i]) <==> alternatives[i].0 != "" && alternatives[i].1 != ""
    {
    }
    if HasAlternatives(fields) {
      forall a | a in alternatives
        ensures a.0 != "" && a.1 != ""
      {
        var i :| 0 <= i < |alternatives| && alternatives[i] == a;
        assert IsAlternative(items[i]);
      }
    }
  }

  /** A finish needs a summary and a rationale, a surrender its reason. */
  lemma EndsReadBack(summary: string, rationale: string, known: seq<string>)
    ensures ParseToolActionProposal(JObject(map["kind" := JString(FINISH_TOOL), "summary" := JString(summary),
                                                "rationale" := JString(rationale)]), known)
            == if summary != "" && rationale != "" then Some(FinishGoal(summary)) else None
    ensures ParseToolActionProposal(JObject(map["kind" := JString(GIVE_UP_TOOL), "reason" := JString(summary)]), known)
            == if summary != "" then Some(GiveUpGoal(summary)) else None
  {
    KindsDiffer();
  }

  lemma OwnWireName(names: seq<string>, toWire: map<string, string>, fromWire: map<string, string>, name: string)
    requires Maps(names, toWire, fromWire) && name in names
    ensures Translated(toWire[name], fromWire) == Some(name)
  {
    if Reserved(toWire[name]) {
      ReservedOnlyFromItself(name, toWire[name]);
    }
  }

  /**
   * A call of a tool under its wire name comes back as a call of that very tool if
   * and only if its arguments are well formed and the tool is not named like a
   * pseudo-tool.
   */
  lemma CallComesBack(names: seq<string>, toWire: map<string, string>, fromWire: map<string, string>, name: string,
                      completion: ParsedCompletion, known: seq<string>, extractJson: string -> Option<Json>, fields: Fields)
    requires Maps(names, toWire, fromWire) && name in names
    requires completion.toolCalls != [] && completion.toolCalls[0].name == toWire[name]
    requires extractJson(completion.toolCalls[0].arguments) == Some(JObject(fields))
    ensures var p := ProposalFromCompletion(completion, fromWire, known, extractJson);
            && (p.Some? && p.value.CallTool? <==> WellFormedCall(fields) && !Reserved(name))
            && (p.Some? && p.value.CallTool? ==> p.value.toolName == name && p.value.input == fields["input"])
  {
    OwnWireName(names, toWire, fromWire, name);
    ReadCall(name, fields);
  }

  lemma ReadCall(toolName: string, fields: Fields)
    ensures var p := ProposalFromToolCall(toolName, JObject(fields));
            && (p.Some? && p.value.CallTool? <==> WellFormedCall(fields) && !Reserved(toolName))
            && (p.Some? && p.value.CallTool? ==> p.value.toolName == toolName && p.value.input == fields["input"])
  {
  }

  lemma CallsAreNamed(toolName: string, args: Json)
    ensures var p := ProposalFromToolCall(toolName, args);
            p.Some? && p.value.CallTool? ==> p.value.toolName == toolName && !Reserved(toolName)
  {
  }

  /** Whatever the model answers, a tool it gets to call is one that was offered. */
  lemma OnlyOfferedTools(names: seq<string>, toWire: map<string, string>, fromWire: map<string, string>,
                         completion: ParsedCompletion, extractJson: string -> Option<Json>)
    requires Maps(names, toWire, fromWire)
    ensures var p := ProposalFromCompletion(completion, fromWire, names, extractJson);
            p.Some? && p.value.CallTool? ==> p.value.toolName in names && !Reserved(p.value.toolName)
  {
    if completion.toolCalls != [] {
      OnlyOfferedCalls(names, toWire, fromWire, completion.toolCalls[0], extractJson);
    } else if extractJson(completion.content).Some? {
      OnlyKnownTools(names, extractJson(completion.content).value);
    }
  }

  lemma OnlyOfferedCalls(names: seq<string>, toWire: map<string, string>, fromWire: map<string, string>,
                         call: Call, extractJson: string -> Option<Json>)
    requires Maps(names, toWire, fromWire)
    ensures Translated(call.name, fromWire).Some? && extractJson(call.arguments).Some? ==>
              var p := ProposalFromToolCall(Translated(call.name, fromWire).value, extractJson(call.arguments).value);
              p.Some? && p.value.CallTool? ==> p.value.toolName in names && !Reserved(p.value.toolName)
  {
    if Translated(call.name, fromWire).Some? && extractJson(call.arguments).Some? {
      CallsAreNamed(Translated(call.name, fromWire).value, extractJson(call.arguments).value);
    }
  }

  lemma OnlyKnownTools(known: seq<string>, raw: Json)
    ensures var p := ParseToolActionProposal(raw, known);
            p.Some? && p.value.CallTool? ==> p.value.toolName in known && !Reserved(p.value.toolName)
  {
    if raw.JObject? && Proposals.HasText(raw.fields, "kind") {
      if Reserved(raw.fields["kind"].s) {
        CallsAreNamed(raw.fields["kind"].s, raw);
      } else if Proposals.HasText(raw.fields, "toolName") {
        CallsAreNamed(raw.fields["toolName"].s, raw);
      }
    }
  }
}
