// src/domain/criteria.ts and formatCriterion of src/cli/config.ts: the grammar
// of mechanically checkable criteria, its parser and its printer.

module Criteria {
  import opened Support
  import opened Text

  datatype Criterion =
    | FileExists(path: string)
    | FileContains(path: string, marker: string)
    | JsonFile(path: string, requiredKeys: Option<seq<string>>)
    | CommandExitsZero(command: string)
    | HttpStatus(status: int)
    | ToolSucceeded(toolName: Option<string>)

  /** The only thing assumed about `Number`: it reads three plain digits as what they say. */
  ghost predicate ReadsStatus(number: NumberFn) {
    forall n: nat :: 100 <= n <= 599 ==> number(Decimal(n)) == Some(n)
  }

  function TrimmedParts(parts: seq<string>): (keys: seq<string>)
    ensures forall k :: k in keys ==> k != "" && Trimmed(k)
    ensures forall k, c :: k in keys && (forall p :: p in parts ==> c !in p) ==> c !in k
  {
    if parts == [] then []
    else
      var key := Trim(parts[0]);
      TrimKeeps(parts[0]);
      if key == "" then TrimmedParts(parts[1..]) else [key] + TrimmedParts(parts[1..])
  }

  lemma TrimKeeps(s: string)
    ensures forall c :: c in Trim(s) ==> c in s
  {
  }

  function NonEmpty(text: string): Option<string> {
    if text == "" then None else Some(text)
  }

  function ParseJsonFile(rest: string): Option<Criterion> {
    var split := IndexOf(rest, "|");
    if split.None? then
      var path :- NonEmpty(Trim(rest));
      Some(JsonFile(path, None))
    else
      var path := Trim(rest[..split.value]);
      var keys := TrimmedParts(Split(rest[split.value + 1..], ","));
      if path == "" then None
      else Some(JsonFile(path, if keys == [] then None else Some(keys)))
  }

  function ParseFileContains(rest: string): Option<Criterion> {
    var split := IndexOf(rest, "|");
    if split.None? || split.value == 0 then None
    else
      var path, marker := Trim(rest[..split.value]), rest[split.value + 1..];
      if path == "" || marker == "" then None else Some(FileContains(path, marker))
  }

  function After(raw: string, prefix: string): (rest: string)
    requires prefix <= raw
    ensures raw == prefix + rest
  {
    raw[|prefix|..]
  }

  datatype Keyword = ToolSucceededKey | FileExistsKey | FileContainsKey | JsonFileKey | CommandKey | HttpStatusKey

  function Prefix(key: Keyword): string {
    match key
    case ToolSucceededKey => "tool_succeeded:"
    case FileExistsKey => "file_exists:"
    case FileContainsKey => "file_contains:"
    case JsonFileKey => "json_file:"
    case CommandKey => "command_exits_zero:"
    case HttpStatusKey => "http_status:"
  }

  /** What follows the prefix decides the criterion. */
  function ParseRest(key: Keyword, rest: string, number: NumberFn): Option<Criterion> {
    match key
    case ToolSucceededKey =>
      var toolName :- NonEmpty(Trim(rest));
      Some(ToolSucceeded(Some(toolName)))
    case FileExistsKey =>
      var path :- NonEmpty(Trim(rest));
      Some(FileExists(path))
    case FileContainsKey => ParseFileContains(rest)
    case JsonFileKey => ParseJsonFile(rest)
    case CommandKey =>
      var command :- NonEmpty(Trim(rest));
      Some(CommandExitsZero(command))
    case HttpStatusKey =>
      var status :- number(Trim(rest));
      if 100 <= status <= 599 then Some(HttpStatus(status)) else None
  }

  /** The first keyword, in the order in which the prefixes are tried, that the text starts with. */
  function KeywordOf(raw: string, keys: seq<Keyword>): (r: Option<Keyword>)
    ensures r.Some? ==> Prefix(r.value) <= raw
    ensures r.None? ==> forall k :: k in keys ==> !(Prefix(k) <= raw)
  {
    if keys == [] then None
    else if Prefix(keys[0]) <= raw then Some(keys[0])
    else KeywordOf(raw, keys[1..])
  }

  const KEYWORDS: seq<Keyword> :=
    [ToolSucceededKey, FileExistsKey, FileContainsKey, JsonFileKey, CommandKey, HttpStatusKey]

  function Parse(text: string, number: NumberFn): Option<Criterion> {
    var raw := Trim(text);
    if raw == "tool_succeeded" then Some(ToolSucceeded(None))
    else
      var key :- KeywordOf(raw, KEYWORDS);
      ParseRest(key, After(raw, Prefix(key)), number)
  }

  function KeyOf(c: Criterion): Keyword {
    match c
    case FileExists(_) => FileExistsKey
    case FileContains(_, _) => FileContainsKey
    case JsonFile(_, _) => JsonFileKey
    case CommandExitsZero(_) => CommandKey
    case HttpStatus(_) => HttpStatusKey
    case ToolSucceeded(_) => ToolSucceededKey
  }

  /** What is printed after the prefix. */
  function FormatRest(c: Criterion): string {
    match c
    case FileExists(path) => path
    case FileContains(path, marker) => path + ['|'] + marker
    case JsonFile(path, keys) => if keys.Some? && keys.value != [] then path + ['|'] + Join(keys.value, ",") else path
    case CommandExitsZero(command) => command
    case HttpStatus(status) => if status >= 0 then Decimal(status) else ['-'] + Decimal(-status)
    case ToolSucceeded(toolName) => toolName.GetOr("")
  }

  function Format(c: Criterion): string {
    if c.ToolSucceeded? && c.toolName.GetOr("") == "" then "tool_succeeded"
    else Prefix(KeyOf(c)) + FormatRest(c)
  }

  predicate Plain(s: string) { s != "" && Trimmed(s) }
  predicate EndsPlain(s: string) { s != "" && !IsSpace(s[|s| - 1]) }

  /**
   * The criteria that survive printing: texts are non-empty and free of outer
   * white space, a path before a `|` has none itself, a key has no `,`. A
   * marker or a key may contain `|`.
   */
  predicate Canonical(c: Criterion) {
    match c
    case FileExists(path) => Plain(path)
    case FileContains(path, marker) => Plain(path) && '|' !in path && EndsPlain(marker)
    case JsonFile(path, keys) =>
      Plain(path) && '|' !in path &&
      (keys.None? || (keys.value != [] && forall k :: k in keys.value ==> Plain(k) && ',' !in k))
    case CommandExitsZero(command) => Plain(command)
    case HttpStatus(status) => 100 <= status <= 599
    case ToolSucceeded(toolName) => toolName.None? || Plain(toolName.value)
  }

  // ------------------------------------------------ everything parsed is canonical

  lemma BeforeBar(rest: string, at: nat)
    requires IndexOf(rest, "|") == Some(at)
    ensures '|' !in Trim(rest[..at])
  {
    forall k | 0 <= k < at
      ensures rest[k] != '|'
    {
      assert !OccursAt(rest, "|", k);
      assert rest[k..k + 1] == [rest[k]];
    }
    TrimKeeps(rest[..at]);
  }

  lemma NoBar(rest: string)
    requires IndexOf(rest, "|").None?
    ensures '|' !in Trim(rest)
  {
    forall k | 0 <= k < |rest|
      ensures rest[k] != '|'
    {
      assert !OccursAt(rest, "|", k);
      assert rest[k..k + 1] == [rest[k]];
    }
    TrimKeeps(rest);
  }

  lemma ParsedJsonFile(rest: string)
    requires ParseJsonFile(rest).Some?
    ensures Canonical(ParseJsonFile(rest).value)
  {
    var split := IndexOf(rest, "|");
    if split.None? {
      NoBar(rest);
    } else {
      BeforeBar(rest, split.value);
      SplitParts(rest[split.value + 1..], ',');
    }
  }

  lemma ParsedFileContains(rest: string)
    requires EndsPlain(rest) && ParseFileContains(rest).Some?
    ensures Canonical(ParseFileContains(rest).value)
  {
    var split := IndexOf(rest, "|").value;
    BeforeBar(rest, split);
    var marker := rest[split + 1..];
    assert marker[|marker| - 1] == rest[|rest| - 1];
  }

  lemma RestIsCanonical(key: Keyword, rest: string, number: NumberFn)
    requires rest == "" || EndsPlain(rest)
    requires ParseRest(key, rest, number).Some?
    ensures Canonical(ParseRest(key, rest, number).value)
  {
    match key {
      case FileContainsKey => ParsedFileContains(rest);
      case JsonFileKey => ParsedJsonFile(rest);
      case _ =>
    }
  }

  lemma ParsedIsCanonical(text: string, number: NumberFn)
    requires Parse(text, number).Some?
    ensures Canonical(Parse(text, number).value)
  {
    var raw := Trim(text);
    if raw != "tool_succeeded" {
      var key := KeywordOf(raw, KEYWORDS).value;
      var rest := After(raw, Prefix(key));
      assert rest != "" ==> rest[|rest| - 1] == raw[|raw| - 1];
      RestIsCanonical(key, rest, number);
    }
  }

  // -------------------------------------------------- canonical criteria round-trip

  lemma FirstBar(path: string, tail: string)
    requires '|' !in path
    ensures IndexOf(path + ['|'] + tail, "|") == Some(|path|)
    ensures (path + ['|'] + tail)[..|path|] == path && (path + ['|'] + tail)[|path| + 1..] == tail
  {
    var s := path + ['|'] + tail;
    forall k | 0 <= k < |path|
      ensures !OccursAt(s, "|", k)
    {
      assert s[k..k + 1][0] == path[k];
    }
    assert OccursAt(s, "|", |path|);
    IndexIs(s, "|", |path|);
  }

  lemma NoBarFound(path: string)
    requires '|' !in path
    ensures IndexOf(path, "|").None?
  {
    forall k | 0 <= k
      ensures !OccursAt(path, "|", k)
    {
      assert k < |path| ==> path[k..k + 1][0] == path[k];
    }
  }

  lemma {:induction false} PlainParts(keys: seq<string>)
    requires forall k :: k in keys ==> Plain(k)
    ensures TrimmedParts(keys) == keys
  {
    if keys != [] {
      assert Plain(keys[0]) by { assert keys[0] in keys; }
      PlainParts(keys[1..]);
      assert [keys[0]] + keys[1..] == keys;
    }
  }

  lemma {:induction false} JoinEndsPlain(keys: seq<string>)
    requires keys != [] && forall k :: k in keys ==> Plain(k)
    ensures EndsPlain(Join(keys, ","))
  {
    assert Plain(keys[0]) by { assert keys[0] in keys; }
    if |keys| > 1 {
      JoinEndsPlain(keys[1..]);
      var joined, rest := Join(keys, ","), Join(keys[1..], ",");
      assert joined[|joined| - 1] == rest[|rest| - 1];
    }
  }

  /** No prefix starts another, so a text that starts with one starts with no other. */
  lemma OnePrefix(k: Keyword, key: Keyword, rest: string)
    requires Prefix(k) <= Prefix(key) + rest
    ensures k == key
  {
    var text := Prefix(key) + rest;
    assert Prefix(k)[0] == text[0] == Prefix(key)[0] && Prefix(k)[5] == text[5] == Prefix(key)[5];
  }

  lemma PrefixShape(key: Keyword)
    ensures Prefix(key) != "" && !IsSpace(Prefix(key)[0]) && key in KEYWORDS
    ensures forall rest: string :: rest != "" ==> Prefix(key) + rest != "tool_succeeded"
  {
    forall rest: string | rest != ""
      ensures Prefix(key) + rest != "tool_succeeded"
    {
      assert key == ToolSucceededKey ==> (Prefix(key) + rest)[14] == ':';
      assert (Prefix(key) + rest)[0] == Prefix(key)[0] && (Prefix(key) + rest)[5] == Prefix(key)[5];
    }
  }

  /** A printed text is dispatched on its own prefix, and trimming does not change it. */
  lemma Dispatch(key: Keyword, rest: string, number: NumberFn)
    requires EndsPlain(rest)
    ensures Parse(Prefix(key) + rest, number) == ParseRest(key, rest, number)
  {
    var text := Prefix(key) + rest;
    PrefixShape(key);
    assert text[|text| - 1] == rest[|rest| - 1];
    assert Trim(text) == text;
    var found := KeywordOf(text, KEYWORDS);
    assert Prefix(key) <= text;
    OnePrefix(found.value, key, rest);
    assert text[|Prefix(key)|..] == rest;
  }

  /** What follows the prefix, printed and parsed again. */
  ghost predicate RestReadsBack(c: Criterion, number: NumberFn) {
    EndsPlain(FormatRest(c)) && ParseRest(KeyOf(c), FormatRest(c), number) == Some(c)
  }

  lemma TextReadsBack(c: Criterion, number: NumberFn)
    requires Canonical(c) && c != ToolSucceeded(None)
    requires c.FileExists? || c.CommandExitsZero? || c.ToolSucceeded?
    ensures RestReadsBack(c, number)
  {
    assert Trim(FormatRest(c)) == FormatRest(c);
  }

  lemma StatusReadsBack(status: nat, number: NumberFn)
    requires 100 <= status <= 599 && ReadsStatus(number)
    ensures RestReadsBack(HttpStatus(status), number)
  {
    var digits := Decimal(status);
    assert !IsSpace(digits[0]) && !IsSpace(digits[|digits| - 1]);
    assert Trim(digits) == digits;
  }

  lemma MarkerReadsBack(path: string, marker: string, number: NumberFn)
    requires Canonical(FileContains(path, marker))
    ensures RestReadsBack(FileContains(path, marker), number)
  {
    FirstBar(path, marker);
    var rest := path + ['|'] + marker;
    assert rest[|rest| - 1] == marker[|marker| - 1];
  }

  lemma PathReadsBack(path: string, number: NumberFn)
    requires Canonical(JsonFile(path, None))
    ensures RestReadsBack(JsonFile(path, None), number)
  {
    NoBarFound(path);
  }

  lemma KeysReadBack(path: string, keys: seq<string>, number: NumberFn)
    requires Canonical(JsonFile(path, Some(keys)))
    ensures RestReadsBack(JsonFile(path, Some(keys)), number)
  {
    var joined := Join(keys, ",");
    JoinEndsPlain(keys);
    FirstBar(path, joined);
    SplitJoin(keys, ',');
    PlainParts(keys);
    var rest := path + ['|'] + joined;
    assert rest[|rest| - 1] == joined[|joined| - 1];
    assert ParseJsonFile(rest) == Some(JsonFile(path, Some(keys)));
  }

  lemma CanonicalReadsBack(c: Criterion, number: NumberFn)
    requires Canonical(c) && ReadsStatus(number) && c != ToolSucceeded(None)
    ensures RestReadsBack(c, number)
  {
    match c {
      case HttpStatus(status) => StatusReadsBack(status, number);
      case FileContains(path, marker) => MarkerReadsBack(path, marker, number);
      case JsonFile(path, keys) =>
        if keys.None? {
          PathReadsBack(path, number);
        } else {
          KeysReadBack(path, keys.value, number);
        }
      case _ => TextReadsBack(c, number);
    }
  }

  lemma FormatReadsBack(c: Criterion, number: NumberFn)
    requires Canonical(c) && ReadsStatus(number)
    ensures Parse(Format(c), number) == Some(c)
  {
    if c == ToolSucceeded(None) {
      assert Trim("tool_succeeded") == "tool_succeeded";
    } else {
      CanonicalReadsBack(c, number);
      Dispatch(KeyOf(c), FormatRest(c), number);
    }
  }

  /** The round trip, exactly: a criterion survives printing if and only if it is canonical. */
  lemma RoundTripIffCanonical(c: Criterion, number: NumberFn)
    requires ReadsStatus(number)
    ensures Parse(Format(c), number) == Some(c) <==> Canonical(c)
  {
    if Canonical(c) {
      FormatReadsBack(c, number);
    } else if Parse(Format(c), number).Some? {
      ParsedIsCanonical(Format(c), number);
    }
  }

  /** What the parser returns for any text is printed to a text that it parses back to the same criterion. */
  lemma ParsedRoundTrips(text: string, number: NumberFn)
    requires ReadsStatus(number) && Parse(text, number).Some?
    ensures Parse(Format(Parse(text, number).value), number) == Parse(text, number)
  {
    ParsedIsCanonical(text, number);
    FormatReadsBack(Parse(text, number).value, number);
  }

  // ------------------------------------------------------------------- collecting

  function Parsed(prose: seq<string>, number: NumberFn): seq<Criterion> {
    if prose == [] then []
    else
      var before := Parsed(prose[..|prose| - 1], number);
      var c := Parse(prose[|prose| - 1], number);
      if c.Some? then before + [c.value] else before
  }

  function Unparsed(prose: seq<string>, number: NumberFn): seq<string> {
    if prose == [] then []
    else
      var before := Unparsed(prose[..|prose| - 1], number);
      var line := prose[|prose| - 1];
      if Parse(line, number).None? && Trim(line) != "" then before + [Trim(line)] else before
  }

  lemma NextLine(prose: seq<string>, i: nat, number: NumberFn, parsed: Option<Criterion>)
    requires i < |prose| && parsed == Parse(prose[i], number)
    ensures Parsed(prose[..i + 1], number) == Parsed(prose[..i], number) + if parsed.Some? then [parsed.value] else []
    ensures Unparsed(prose[..i + 1], number) ==
            Unparsed(prose[..i], number) + if parsed.None? && Trim(prose[i]) != "" then [Trim(prose[i])] else []
  {
    assert prose[..i + 1][..i] == prose[..i];
  }

  /** Structured criteria first, then every line of prose that matches the grammar, in order. */
  method CollectCriteria(structured: seq<Criterion>, prose: seq<string>, number: NumberFn)
    returns (criteria: seq<Criterion>, uncheckedProse: seq<string>)
    ensures criteria == structured + Parsed(prose, number)
    ensures uncheckedProse == Unparsed(prose, number)
  {
    criteria, uncheckedProse := structured, [];
    for i := 0 to |prose|
      invariant criteria == structured + Parsed(prose[..i], number)
      invariant uncheckedProse == Unparsed(prose[..i], number)
    {
      var parsed := Parse(prose[i], number);
      NextLine(prose, i, number, parsed);
      if parsed.Some? {
        criteria := criteria + [parsed.value];
      } else if Trim(prose[i]) != "" {
        uncheckedProse := uncheckedProse + [Trim(prose[i])];
      }
    }
    assert prose[..|prose|] == prose;
  }

  /** Nothing mechanical is collected exactly when nothing structured was given and no line parses. */
  lemma {:induction false} NothingParsed(prose: seq<string>, number: NumberFn)
    ensures Parsed(prose, number) == [] <==> forall i :: 0 <= i < |prose| ==> Parse(prose[i], number).None?
  {
    if prose != [] {
      NothingParsed(prose[..|prose| - 1], number);
      assert forall i :: 0 <= i < |prose| - 1 ==> prose[..|prose| - 1][i] == prose[i];
    }
  }
}
