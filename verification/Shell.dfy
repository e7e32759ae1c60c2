// The shell printers: src/tools/support/shell.ts and the wrapping of commands in
// src/sandbox/cloudflare/cloudflare-sandbox-environment.ts, read back by a lexer
// for the POSIX.1-2017 Shell Command Language (sections 2.2.1, 2.2.2 and 2.3).

module PosixLexer {
  import opened Support

  /** A word after quote removal, an operator, or a line break. */
  datatype Token = Word(text: string) | Operator(symbol: string) | NewLine

  /** Where the lexer stands between two characters. */
  datatype Mode =
    | Blank
    | InWord(word: string)
    | Quoted(word: string)
    | Escaped(pending: Option<string>)
    | InOperator(symbol: string)
    | InComment

  /** `Failed` stands for input whose words the text alone does not fix. */
  datatype Lexer = Lexer(tokens: seq<Token>, mode: Mode) | Failed

  /** Characters that start an expansion, a double-quoted part or a pattern when unquoted. */
  predicate Expands(c: char) {
    c in {'"', '$', '`', '*', '?', '[', ']', '~', '{', '}', '!', '^'}
  }

  predicate StartsOperator(c: char) {
    c in {'|', '&', ';', '<', '>', '(', ')'}
  }

  /** Whether `c` continues the operator read so far: `&&`, `||`, `;;`, `<<`, `>>`, `<&`, `>&`, `<>`, `<<-`, `>|`. */
  predicate ExtendsOperator(symbol: string, c: char) {
    if |symbol| == 1 then
      match symbol[0]
      case '&' => c == '&'
      case '|' => c == '|'
      case ';' => c == ';'
      case '<' => c in {'<', '&', '>'}
      case '>' => c in {'>', '&', '|'}
      case _ => false
    else
      |symbol| == 2 && symbol[0] == symbol[1] == '<' && c == '-'
  }

  function ModeOf(word: Option<string>): Mode {
    match word
    case None => Blank
    case Some(w) => InWord(w)
  }

  function Delimited(tokens: seq<Token>, word: Option<string>): seq<Token> {
    match word
    case None => tokens
    case Some(w) => tokens + [Word(w)]
  }

  /** An unquoted character, with the word it may belong to. */
  function Unquoted(tokens: seq<Token>, word: Option<string>, c: char): Lexer {
    if c == '\'' then Lexer(tokens, Quoted(word.GetOr("")))
    else if c == '\\' then Lexer(tokens, Escaped(word))
    else if Expands(c) then Failed
    else if c == ' ' || c == '\t' then Lexer(Delimited(tokens, word), Blank)
    else if c == '\n' then Lexer(Delimited(tokens, word) + [NewLine], Blank)
    else if StartsOperator(c) then Lexer(Delimited(tokens, word), InOperator([c]))
    else if c == '#' && word.None? then Lexer(tokens, InComment)
    else Lexer(tokens, InWord(word.GetOr("") + [c]))
  }

  /** One character. No shell command can hold a NUL. */
  function Step(l: Lexer, c: char): Lexer {
    if l.Failed? || c == '\0' then Failed
    else match l.mode
      case Blank => Unquoted(l.tokens, None, c)
      case InWord(w) => Unquoted(l.tokens, Some(w), c)
      case Quoted(w) => Lexer(l.tokens, if c == '\'' then InWord(w) else Quoted(w + [c]))
      case Escaped(word) =>
        if c == '\n' then Lexer(l.tokens, ModeOf(word)) else Lexer(l.tokens, InWord(word.GetOr("") + [c]))
      case InOperator(symbol) =>
        if ExtendsOperator(symbol, c) then Lexer(l.tokens, InOperator(symbol + [c]))
        else Unquoted(l.tokens + [Operator(symbol)], None, c)
      case InComment => if c == '\n' then Lexer(l.tokens + [NewLine], Blank) else l
  }

  function Run(l: Lexer, s: string): Lexer
    decreases |s|
  {
    if s == [] then l else Run(Step(l, s[0]), s[1..])
  }

  function Finish(l: Lexer): Option<seq<Token>> {
    if l.Failed? then None
    else match l.mode
      case Blank => Some(l.tokens)
      case InWord(w) => Some(l.tokens + [Word(w)])
      case InOperator(symbol) => Some(l.tokens + [Operator(symbol)])
      case InComment => Some(l.tokens)
      case Quoted(_) => None
      case Escaped(_) => None
  }

  /** The tokens of a command text, when the text alone fixes them. */
  function Lex(s: string): Option<seq<Token>> {
    Finish(Run(Lexer([], Blank), s))
  }

  lemma {:induction false} RunAppend(l: Lexer, a: string, b: string)
    ensures Run(l, a + b) == Run(Run(l, a), b)
    decreases |a|
  {
    if a == [] {
      assert a + b == b;
    } else {
      assert (a + b)[1..] == a[1..] + b;
      RunAppend(Step(l, a[0]), a[1..], b);
    }
  }

  lemma {:induction false} FailedStays(s: string)
    ensures Run(Failed, s) == Failed
  {
    if s != [] {
      FailedStays(s[1..]);
    }
  }

  lemma {:induction false} NulFails(l: Lexer, s: string)
    requires '\0' in s
    ensures Run(l, s) == Failed
    decreases |s|
  {
    if s[0] == '\0' {
      FailedStays(s[1..]);
    } else {
      NulFails(Step(l, s[0]), s[1..]);
    }
  }
}

module Shell {
  import opened Support
  import opened Text
  import opened PosixLexer

  /** The class `[A-Za-z0-9_./:=@%+,-]`. */
  predicate IsSafe(c: char) {
    IsAlphanumeric(c) || c in {'_', '.', '/', ':', '=', '@', '%', '+', ',', '-'}
  }

  predicate Safe(s: string) {
    s != [] && forall i :: 0 <= i < |s| ==> IsSafe(s[i])
  }

  /** Every embedded single quote spliced as `'\''`. */
  function Spliced(s: string): string {
    if s == [] then []
    else (if s[0] == '\'' then ['\'', '\\', '\'', '\''] else [s[0]]) + Spliced(s[1..])
  }

  /** The Cloudflare adapter's `shellQuote`, and the last case of the tools' one. */
  function SingleQuoted(s: string): string {
    ['\''] + Spliced(s) + ['\'']
  }

  function ShellQuote(argument: string): string {
    if argument == "" then ['\'', '\'']
    else if Safe(argument) then argument
    else SingleQuoted(argument)
  }

  /** An argument is printed between single quotes if and only if it is empty or holds an unsafe character. */
  lemma QuotedIffUnsafe(argument: string)
    ensures ShellQuote(argument)[..1] == ['\''] <==> !Safe(argument)
    ensures ShellQuote(argument) == SingleQuoted(argument) <==> !Safe(argument)
    ensures Safe(argument) ==> ShellQuote(argument) == argument
  {
    if argument == "" {
      assert Spliced(argument) == [];
    } else if Safe(argument) {
      assert IsSafe(argument[0]) && !IsSafe('\'');
    }
  }

  /** A command name, for one, is printed bare. */
  lemma BareExample()
    ensures ShellQuote("ls") == "ls" && ShellQuote("ls")[..1] != ['\'']
  {
    assert Safe("ls");
    QuotedIffUnsafe("ls");
  }

  function Quotes(argv: seq<string>): seq<string> {
    if argv == [] then [] else [ShellQuote(argv[0])] + Quotes(argv[1..])
  }

  function ShellJoin(argv: seq<string>): string {
    Join(Quotes(argv), " ")
  }

  function Words(argv: seq<string>): seq<Token> {
    seq(|argv|, i requires 0 <= i < |argv| => Word(argv[i]))
  }

  predicate NulFree(s: string) {
    '\0' !in s
  }

  // --------------------------------------------------------- one quoted argument

  /** Inside single quotes nothing is special but the quote, and the splice gives it back. */
  lemma {:induction false} SplicedReads(tokens: seq<Token>, word: string, s: string)
    requires NulFree(s)
    ensures Run(Lexer(tokens, Quoted(word)), Spliced(s)) == Lexer(tokens, Quoted(word + s))
    decreases |s|
  {
    if s == [] {
      assert word + s == word;
    } else {
      assert s[0] in s;
      var first := if s[0] == '\'' then ['\'', '\\', '\'', '\''] else [s[0]];
      RunAppend(Lexer(tokens, Quoted(word)), first, Spliced(s[1..]));
      SpliceReads(tokens, word, s[0]);
      SplicedReads(tokens, word + [s[0]], s[1..]);
      assert word + [s[0]] + s[1..] == word + s;
    }
  }

  lemma SpliceReads(tokens: seq<Token>, word: string, c: char)
    requires c != '\0'
    ensures Run(Lexer(tokens, Quoted(word)), if c == '\'' then ['\'', '\\', '\'', '\''] else [c])
            == Lexer(tokens, Quoted(word + [c]))
  {
    var start := Lexer(tokens, Quoted(word));
    if c == '\'' {
      OneStep(start, '\'');
      OneStep(Lexer(tokens, InWord(word)), '\\');
      OneStep(Lexer(tokens, Escaped(Some(word))), '\'');
      OneStep(Lexer(tokens, InWord(word + [c])), '\'');
      RunAppend(start, ['\''], ['\\', '\'', '\'']);
      RunAppend(Lexer(tokens, InWord(word)), ['\\'], ['\'', '\'']);
      RunAppend(Lexer(tokens, Escaped(Some(word))), ['\''], ['\'']);
      assert ['\'', '\\', '\'', '\''] == ['\''] + ['\\', '\'', '\''];
      assert ['\\', '\'', '\''] == ['\\'] + ['\'', '\''];
      assert ['\'', '\''] == ['\''] + ['\''];
    } else {
      OneStep(start, c);
    }
  }

  lemma OneStep(l: Lexer, c: char)
    ensures Run(l, [c]) == Step(l, c)
  {
    assert [c][1..] == [];
  }

  lemma SingleQuotedReads(tokens: seq<Token>, word: Option<string>, s: string)
    requires NulFree(s)
    ensures Run(Lexer(tokens, ModeOf(word)), SingleQuoted(s)) == Lexer(tokens, InWord(word.GetOr("") + s))
  {
    var start := Lexer(tokens, ModeOf(word));
    RunAppend(start, ['\''] + Spliced(s), ['\'']);
    RunAppend(start, ['\''], Spliced(s));
    OneStep(start, '\'');
    SplicedReads(tokens, word.GetOr(""), s);
    OneStep(Lexer(tokens, Quoted(word.GetOr("") + s)), '\'');
  }

  lemma SafeIsOrdinary(tokens: seq<Token>, word: Option<string>, c: char)
    requires IsSafe(c)
    ensures Step(Lexer(tokens, ModeOf(word)), c) == Lexer(tokens, InWord(word.GetOr("") + [c]))
  {
  }

  /** A text of safe characters is its own quotation. */
  lemma {:induction false} SafeReads(tokens: seq<Token>, word: Option<string>, s: string)
    requires Safe(s)
    ensures Run(Lexer(tokens, ModeOf(word)), s) == Lexer(tokens, InWord(word.GetOr("") + s))
    decreases |s|
  {
    SafeIsOrdinary(tokens, word, s[0]);
    var next := word.GetOr("") + [s[0]];
    if |s| == 1 {
      OneStep(Lexer(tokens, ModeOf(word)), s[0]);
      assert s == [s[0]];
    } else {
      SafeReads(tokens, Some(next), s[1..]);
      assert next + s[1..] == word.GetOr("") + s;
    }
  }

  /** Wherever a word may start or go on, a quoted argument adds exactly its own characters to it. */
  lemma QuotedReads(tokens: seq<Token>, word: Option<string>, argument: string)
    requires NulFree(argument)
    ensures Run(Lexer(tokens, ModeOf(word)), ShellQuote(argument)) == Lexer(tokens, InWord(word.GetOr("") + argument))
  {
    if argument == "" {
      assert Spliced("") == [];
      assert SingleQuoted("") == ['\'', '\''];
      SingleQuotedReads(tokens, word, "");
    } else if Safe(argument) {
      SafeReads(tokens, word, argument);
    } else {
      SingleQuotedReads(tokens, word, argument);
    }
  }

  // ------------------------------------------------------------------ round trip

  ghost predicate PrintsAt(tokens: seq<Token>, text: string, token: Token) {
    && Run(Lexer(tokens, Blank), text + " ") == Lexer(tokens + [token], Blank)
    && Finish(Run(Lexer(tokens, Blank), text)) == Some(tokens + [token])
  }

  /** Standing alone or before a blank, the text is that one token. */
  ghost predicate Prints(text: string, token: Token) {
    forall tokens :: PrintsAt(tokens, text, token)
  }

  lemma WordPrints(text: string, word: string)
    requires forall tokens :: Run(Lexer(tokens, Blank), text) == Lexer(tokens, InWord(word))
    ensures Prints(text, Word(word))
  {
    forall tokens
      ensures PrintsAt(tokens, text, Word(word))
    {
      RunAppend(Lexer(tokens, Blank), text, " ");
      OneStep(Lexer(tokens, InWord(word)), ' ');
    }
  }

  lemma QuotePrints(argument: string)
    requires NulFree(argument)
    ensures Prints(ShellQuote(argument), Word(argument))
  {
    forall tokens
      ensures Run(Lexer(tokens, Blank), ShellQuote(argument)) == Lexer(tokens, InWord(argument))
    {
      QuotedReads(tokens, None, argument);
      assert "" + argument == argument;
    }
    WordPrints(ShellQuote(argument), argument);
  }

  lemma SingleQuotedPrints(s: string)
    requires NulFree(s)
    ensures Prints(SingleQuoted(s), Word(s))
  {
    forall tokens
      ensures Run(Lexer(tokens, Blank), SingleQuoted(s)) == Lexer(tokens, InWord(s))
    {
      SingleQuotedReads(tokens, None, s);
      assert "" + s == s;
    }
    WordPrints(SingleQuoted(s), s);
  }

  lemma SafePrints(s: string)
    requires Safe(s)
    ensures Prints(s, Word(s))
  {
    forall tokens
      ensures Run(Lexer(tokens, Blank), s) == Lexer(tokens, InWord(s))
    {
      SafeReads(tokens, None, s);
      assert "" + s == s;
    }
    WordPrints(s, s);
  }

  /** Printed tokens, joined by blanks, read back as those tokens. */
  lemma {:induction false} JoinReads(before: seq<Token>, texts: seq<string>, tokens: seq<Token>)
    requires |texts| == |tokens| && forall i :: 0 <= i < |texts| ==> Prints(texts[i], tokens[i])
    ensures Finish(Run(Lexer(before, Blank), Join(texts, " "))) == Some(before + tokens)
    decreases |texts|
  {
    if texts == [] {
      assert before + tokens == before;
    } else {
      assert PrintsAt(before, texts[0], tokens[0]);
      if |texts| == 1 {
        assert tokens == [tokens[0]];
      } else {
        assert Join(texts, " ") == texts[0] + " " + Join(texts[1..], " ");
        RunAppend(Lexer(before, Blank), texts[0] + " ", Join(texts[1..], " "));
        JoinReads(before + [tokens[0]], texts[1..], tokens[1..]);
        assert before + [tokens[0]] + tokens[1..] == before + tokens;
      }
    }
  }

  lemma {:induction false} QuotesAre(argv: seq<string>)
    ensures |Quotes(argv)| == |argv| && forall i :: 0 <= i < |argv| ==> Quotes(argv)[i] == ShellQuote(argv[i])
  {
    if argv != [] {
      QuotesAre(argv[1..]);
    }
  }

  lemma {:induction false} NulIsKept(s: string)
    requires '\0' in s
    ensures '\0' in Spliced(s)
  {
    if s[0] != '\0' {
      NulIsKept(s[1..]);
    }
  }

  lemma NulIsQuoted(s: string)
    requires '\0' in s
    ensures '\0' in ShellQuote(s)
  {
    NulIsKept(s);
  }

  lemma {:induction false} NulIsJoined(argv: seq<string>, k: nat)
    requires k < |argv| && !NulFree(argv[k])
    ensures '\0' in ShellJoin(argv)
  {
    if k == 0 {
      NulIsQuoted(argv[0]);
    } else {
      NulIsJoined(argv[1..], k - 1);
    }
  }

  /** The shell reads `shellJoin(argv)` back as exactly `argv`, if and only if `argv` holds no NUL. */
  lemma ShellRoundTrip(argv: seq<string>)
    ensures Lex(ShellJoin(argv)) == Some(Words(argv)) <==> forall a :: a in argv ==> NulFree(a)
  {
    if k :| 0 <= k < |argv| && !NulFree(argv[k]) {
      NulIsJoined(argv, k);
      NulFails(Lexer([], Blank), ShellJoin(argv));
    } else {
      QuotesAre(argv);
      forall i | 0 <= i < |argv|
        ensures Prints(Quotes(argv)[i], Words(argv)[i])
      {
        QuotePrints(argv[i]);
      }
      JoinReads([], Quotes(argv), Words(argv));
      assert [] + Words(argv) == Words(argv);
    }
  }

  /** Two different argument lists never print the same command. */
  lemma ShellJoinInjective(a: seq<string>, b: seq<string>)
    requires forall x :: x in a ==> NulFree(x)
    requires forall x :: x in b ==> NulFree(x)
    requires ShellJoin(a) == ShellJoin(b)
    ensures a == b
  {
    ShellRoundTrip(a);
    ShellRoundTrip(b);
    assert |Words(a)| == |a|;
    forall i | 0 <= i < |a|
      ensures a[i] == b[i]
    {
      assert Words(a)[i] == Word(a[i]) && Words(b)[i] == Word(b[i]);
    }
  }
}

/** The wrapping of commands by the Cloudflare adapter. */
module CloudflareSandbox {
  import opened Support
  import opened Text
  import opened PosixLexer
  import opened Shell

  // ------------------------------------------------------- what a shell text runs

  /** The simple commands the adapter builds, as the lexer reads them. */
  datatype Invocation =
    | Plain
    | ShC(script: string, stdin: Option<string>)
    | Timed(grace: string, seconds: string, script: string)

  function Reading(shell: string): Invocation {
    var tokens := Lex(shell).GetOr([]);
    if |tokens| == 5 && tokens[..2] == [Word("sh"), Word("-c")] && tokens[2].Word? && tokens[3] == Operator("<") && tokens[4].Word? then
      ShC(tokens[2].text, Some(tokens[4].text))
    else if |tokens| == 7 && tokens[..2] == [Word("timeout"), Word("-k")] && tokens[2].Word? && tokens[3].Word?
            && tokens[4..6] == [Word("sh"), Word("-c")] && tokens[6].Word? then
      Timed(tokens[2].text, tokens[3].text, tokens[6].text)
    else
      Plain
  }

  // ---------------------------------------------------------------------- wrapping

  /** `sh -c COMMAND < PATH` */
  function WithStdin(command: string, path: string): string {
    Join(["sh", "-c", SingleQuoted(command), "<", SingleQuoted(path)], " ")
  }

  /** `timeout -k GRACE SECONDS sh -c SHELL` */
  function WithTimeout(grace: string, seconds: string, shell: string): string {
    Join(["timeout", "-k", grace, seconds, "sh", "-c", SingleQuoted(shell)], " ")
  }

  lemma RedirectPrints()
    ensures Prints("<", Operator("<"))
  {
    forall tokens
      ensures PrintsAt(tokens, "<", Operator("<"))
    {
      OneStep(Lexer(tokens, Blank), '<');
      OneStep(Lexer(tokens, InOperator("<")), ' ');
      RunAppend(Lexer(tokens, Blank), "<", " ");
    }
  }

  /** The wrapped command reads back as the command and the path of its input. */
  lemma StdinReadsBack(command: string, path: string)
    requires NulFree(command) && NulFree(path)
    ensures Reading(WithStdin(command, path)) == ShC(command, Some(path))
  {
    SafePrints("sh");
    SafePrints("-c");
    SingleQuotedPrints(command);
    RedirectPrints();
    SingleQuotedPrints(path);
    JoinReads([], ["sh", "-c", SingleQuoted(command), "<", SingleQuoted(path)],
              [Word("sh"), Word("-c"), Word(command), Operator("<"), Word(path)]);
  }

  lemma TimeoutReadsBack(grace: string, seconds: string, shell: string)
    requires Safe(grace) && Safe(seconds) && NulFree(shell)
    ensures Reading(WithTimeout(grace, seconds, shell)) == Timed(grace, seconds, shell)
  {
    SafePrints("timeout");
    SafePrints("-k");
    SafePrints(grace);
    SafePrints(seconds);
    SafePrints("sh");
    SafePrints("-c");
    SingleQuotedPrints(shell);
    JoinReads([], ["timeout", "-k", grace, seconds, "sh", "-c", SingleQuoted(shell)],
              [Word("timeout"), Word("-k"), Word(grace), Word(seconds), Word("sh"), Word("-c"), Word(shell)]);
  }

  lemma {:induction false} SplicedNulFree(s: string)
    requires NulFree(s)
    ensures NulFree(Spliced(s))
  {
    if s != [] {
      assert s[0] in s;
      SplicedNulFree(s[1..]);
    }
  }

  /** The command as the client gets it. */
  function Wrapped(command: string, path: Option<string>, grace: string, seconds: Option<string>): string {
    var shell := if path.Some? then WithStdin(command, path.value) else command;
    if seconds.Some? then WithTimeout(grace, seconds.value, shell) else shell
  }

  /** Unwrapping the text gives back the command, the path of its input and the deadline. */
  predicate Unwraps(shell: string, command: string, path: Option<string>, grace: string, seconds: Option<string>) {
    match (path, seconds)
    case (None, None) => shell == command
    case (Some(p), None) => Reading(shell) == ShC(command, Some(p))
    case (None, Some(s)) => Reading(shell) == Timed(grace, s, command)
    case (Some(p), Some(s)) =>
      && Reading(shell).Timed? && Reading(shell).grace == grace && Reading(shell).seconds == s
      && Reading(Reading(shell).script) == ShC(command, Some(p))
  }

  lemma WrappingUnwraps(command: string, path: Option<string>, grace: string, seconds: Option<string>)
    requires NulFree(command) && (path.Some? ==> NulFree(path.value))
    requires seconds.Some? ==> Safe(grace) && Safe(seconds.value)
    ensures Unwraps(Wrapped(command, path, grace, seconds), command, path, grace, seconds)
  {
    var shell := if path.Some? then WithStdin(command, path.value) else command;
    if path.Some? {
      StdinReadsBack(command, path.value);
      StdinNulFree(command, path.value);
    }
    if seconds.Some? {
      TimeoutReadsBack(grace, seconds.value, shell);
    }
  }

  lemma StdinNulFree(command: string, path: string)
    requires NulFree(command) && NulFree(path)
    ensures NulFree(WithStdin(command, path))
  {
    SplicedNulFree(command);
    SplicedNulFree(path);
    JoinNulFree(["sh", "-c", SingleQuoted(command), "<", SingleQuoted(path)]);
  }

  lemma {:induction false} JoinNulFree(parts: seq<string>)
    requires forall i :: 0 <= i < |parts| ==> NulFree(parts[i])
    ensures NulFree(Join(parts, " "))
  {
    if |parts| > 1 {
      JoinNulFree(parts[1..]);
    }
  }

  // ------------------------------------------------------------------- runCommand

  datatype ClientErrorKind =
    | RequestTimeout | FileNotFound | ProcessNotFound | PermissionDenied | ContainerUnavailable | Other
  datatype ClientError = ClientError(kind: ClientErrorKind, message: string)
  datatype EnvironmentError = NotFound | Denied | Unavailable | Internal
  datatype ExecResult = ExecResult(exitCode: int, stdout: string, stderr: string)
  datatype CommandResult = CommandResult(command: string, exitCode: Option<int>, stdout: string, stderr: string,
                                         durationMs: int, timedOut: bool)

  /** A request to the sandbox client. */
  datatype ClientCall = WriteFile(path: string, content: string) | Exec(shell: string) | DeleteFile(path: string)

  function ToEnvironmentError(error: ClientError): EnvironmentError {
    match error.kind
    case FileNotFound => NotFound
    case ProcessNotFound => NotFound
    case PermissionDenied => Denied
    case ContainerUnavailable => Unavailable
    case RequestTimeout => Unavailable
    case Other => Internal
  }

  function StdinPath(tempDir: string, startedAt: nat, counter: nat): (path: string)
    ensures tempDir + "/.agent-stdin-" <= path
  {
    tempDir + "/.agent-stdin-" + (Decimal(startedAt) + ['-'] + Decimal(counter))
  }

  /** No two staged inputs of one environment share a path, even when they start in the same millisecond. */
  lemma StdinPathsDiffer(tempDir: string, startedAt: nat, counter: nat, otherStart: nat, otherCounter: nat)
    requires StdinPath(tempDir, startedAt, counter) == StdinPath(tempDir, otherStart, otherCounter)
    ensures startedAt == otherStart && counter == otherCounter
  {
    var prefix := tempDir + "/.agent-stdin-";
    SamePrefix(prefix, Decimal(startedAt) + ['-'] + Decimal(counter), Decimal(otherStart) + ['-'] + Decimal(otherCounter));
    DashedInjective(startedAt, counter, otherStart, otherCounter);
  }

  lemma SamePrefix(prefix: string, a: string, b: string)
    requires prefix + a == prefix + b
    ensures a == b
  {
    assert a == (prefix + a)[|prefix|..] && b == (prefix + b)[|prefix|..];
  }

  lemma DashedInjective(a: nat, b: nat, c: nat, d: nat)
    requires Decimal(a) + ['-'] + Decimal(b) == Decimal(c) + ['-'] + Decimal(d)
    ensures a == c && b == d
  {
    CutAtDash(Decimal(a), Decimal(b), Decimal(c), Decimal(d));
    DecimalInjective(a, c);
    DecimalInjective(b, d);
  }

  lemma CutAtDash(a: string, b: string, c: string, d: string)
    requires '-' !in a && '-' !in c
    requires a + ['-'] + b == c + ['-'] + d
    ensures a == c && b == d
  {
    var s := a + ['-'] + b;
    assert s[|a|] == '-' && s[|c|] == '-';
    assert |a| == |c|;
    assert a == s[..|a|] && c == s[..|c|];
    assert b == s[|a| + 1..] && d == s[|c| + 1..];
  }

  lemma StdinPathNulFree(tempDir: string, startedAt: nat, counter: nat)
    requires NulFree(tempDir)
    ensures NulFree(StdinPath(tempDir, startedAt, counter))
  {
    assert forall c :: c in Decimal(startedAt) || c in Decimal(counter) ==> '0' <= c <= '9';
  }

  class CloudflareSandboxEnvironment {
    const tempDir: string
    const killGraceSeconds: real
    /** `String(number)`. */
    const numberText: real -> string
    var stdinCounter: nat
    /** Every request made to the client, in order. */
    var calls: seq<ClientCall>

    constructor (tempDir: string, killGraceSeconds: real, numberText: real -> string)
      requires forall x: real :: Safe(numberText(x))
      ensures this.tempDir == tempDir && this.killGraceSeconds == killGraceSeconds && this.numberText == numberText
      ensures Valid() && stdinCounter == 0 && calls == []
    {
      this.tempDir, this.killGraceSeconds, this.numberText := tempDir, killGraceSeconds, numberText;
      stdinCounter, calls := 0, [];
    }

    /** A printed number is made of characters that need no quoting. */
    ghost predicate Valid() {
      forall x: real :: Safe(numberText(x))
    }

    /** The deadline is printed in seconds, and is never less than a tenth of one. */
    lemma DeadlineInSeconds(ms: int, seconds: real)
      requires seconds * 1000.0 == ms as real
      ensures Deadline(Some(ms)) == Some(numberText(if ms >= 100 then seconds else 0.1)) && Deadline(None) == None
    {
    }

    function Deadline(timeoutMs: Option<int>): Option<string> {
      match timeoutMs
      case None => None
      case Some(ms) =>
        var seconds := ms as real / 1000.0;
        Some(numberText(if seconds < 0.1 then 0.1 else seconds))
    }

    /** Stages the input, if any, and writes down the path before the request that may fail. */
    method Stage(command: string, stdin: Option<string>, startedAt: nat, staged: Completion<ClientError>)
      returns (shell: Result<string, ClientError>, path: Option<string>)
      modifies this
      ensures stdinCounter == old(stdinCounter) + if stdin.Some? then 1 else 0
      ensures path == if stdin.Some? then Some(StdinPath(tempDir, startedAt, stdinCounter)) else None
      ensures calls == old(calls) + if stdin.Some? then [WriteFile(path.value, stdin.value)] else []
      ensures shell == if stdin.Some? && staged.Threw? then Err(staged.error)
                       else Ok(if stdin.Some? then WithStdin(command, path.value) else command)
    {
      path := None;
      if stdin.Some? {
        stdinCounter := stdinCounter + 1;
        path := Some(StdinPath(tempDir, startedAt, stdinCounter));
        calls := calls + [WriteFile(path.value, stdin.value)];
        if staged.Threw? {
          return Err(staged.error), path;
        }
        return Ok(WithStdin(command, path.value)), path;
      }
      shell := Ok(command);
    }

    /**
     * `staged` and `answer` are how the client answers the upload and the
     * execution. Whatever they are, the wrapped command is all that is executed,
     * the shell reads it back as the command, its input and its deadline, and a
     * staged input is deleted last.
     */
    method RunCommand(command: string, stdin: Option<string>, timeoutMs: Option<int>, startedAt: nat, finishedAt: nat,
                      staged: Completion<ClientError>, answer: Result<ExecResult, ClientError>)
      returns (r: Result<CommandResult, EnvironmentError>)
      requires Valid() && startedAt <= finishedAt
      modifies this
      ensures stdinCounter == old(stdinCounter) + if stdin.Some? then 1 else 0
      ensures var path := if stdin.Some? then Some(StdinPath(tempDir, startedAt, stdinCounter)) else None;
              var shell := Wrapped(command, path, numberText(killGraceSeconds), Deadline(timeoutMs));
              && calls == old(calls) +
                          (if path.None? then [Exec(shell)]
                           else if staged.Threw? then [WriteFile(path.value, stdin.value), DeleteFile(path.value)]
                           else [WriteFile(path.value, stdin.value), Exec(shell), DeleteFile(path.value)])
              && (NulFree(command) && NulFree(tempDir) ==>
                    Unwraps(shell, command, path, numberText(killGraceSeconds), Deadline(timeoutMs)))
      ensures var outcome := if stdin.Some? && staged.Threw? then Err(staged.error) else answer;
              r == Reported(command, timeoutMs, finishedAt - startedAt, outcome)
    {
      var shell, path := Stage(command, stdin, startedAt, staged);
      if NulFree(command) && NulFree(tempDir) {
        StdinPathNulFree(tempDir, startedAt, stdinCounter);
        WrappingUnwraps(command, path, numberText(killGraceSeconds), Deadline(timeoutMs));
      }
      if shell.Err? {
        r := Caught(command, timeoutMs, finishedAt - startedAt, shell.error);
      } else {
        var deadline := Deadline(timeoutMs);
        var text := if deadline.Some? then WithTimeout(numberText(killGraceSeconds), deadline.value, shell.value) else shell.value;
        calls := calls + [Exec(text)];
        if answer.Err? {
          r := Caught(command, timeoutMs, finishedAt - startedAt, answer.error);
        } else {
          var timedOut := timeoutMs.Some? && answer.value.exitCode in {124, 137} && finishedAt - startedAt >= timeoutMs.value;
          r := Ok(CommandResult(command, if timedOut then None else Some(answer.value.exitCode), answer.value.stdout,
                                answer.value.stderr, finishedAt - startedAt, timedOut));
        }
      }
      if path.Some? {
        calls := calls + [DeleteFile(path.value)];
      }
    }
  }

  const DEADLINE_NOTICE := "[cloudflare-sandbox] request deadline exceeded; output unavailable: "

  function Caught(command: string, timeoutMs: Option<int>, durationMs: int, error: ClientError): Result<CommandResult, EnvironmentError> {
    if error.kind == RequestTimeout && timeoutMs.Some? then
      Ok(CommandResult(command, None, "", DEADLINE_NOTICE + error.message, durationMs, true))
    else Err(ToEnvironmentError(error))
  }

  function Reported(command: string, timeoutMs: Option<int>, durationMs: int, outcome: Result<ExecResult, ClientError>)
    : Result<CommandResult, EnvironmentError>
  {
    match outcome
    case Err(error) => Caught(command, timeoutMs, durationMs, error)
    case Ok(done) =>
      var timedOut := timeoutMs.Some? && done.exitCode in {124, 137} && durationMs >= timeoutMs.value;
      Ok(CommandResult(command, if timedOut then None else Some(done.exitCode), done.stdout, done.stderr, durationMs, timedOut))
  }

  /**
   * A result without exit code is exactly a timed-out one, and only a command with
   * a deadline times out. Whatever the process wrote and returned is passed on,
   * except the exit code of a process that ran until its deadline; 124 and 137
   * from a process that ended earlier, or that had no deadline, are exit codes.
   */
  lemma NoExitCodeIffTimedOut(command: string, timeoutMs: Option<int>, durationMs: int, outcome: Result<ExecResult, ClientError>)
    ensures var r := Reported(command, timeoutMs, durationMs, outcome);
            && (r.Ok? ==> (r.value.exitCode.None? <==> r.value.timedOut) && (r.value.timedOut ==> timeoutMs.Some?))
            && (outcome.Ok? ==> r.Ok? && r.value.stdout == outcome.value.stdout && r.value.stderr == outcome.value.stderr)
            && (outcome.Ok? && (timeoutMs.None? || durationMs < timeoutMs.value) ==> r.value.exitCode == Some(outcome.value.exitCode))
            && (outcome.Err? ==> (r.Ok? <==> outcome.error.kind == RequestTimeout && timeoutMs.Some?))
            && (outcome.Err? && r.Ok? ==> r.value.timedOut && r.value.stdout == "" && outcome.error.message <= r.value.stderr[|DEADLINE_NOTICE|..])
            && (r.Ok? ==> r.value.command == command && r.value.durationMs == durationMs)
            && (r == Err(NotFound) <==> outcome.Err? && outcome.error.kind in {FileNotFound, ProcessNotFound})
            && (r == Err(Denied) <==> outcome.Err? && outcome.error.kind == PermissionDenied)
            && (r == Err(Unavailable) <==>
                  outcome.Err? && (outcome.error.kind == ContainerUnavailable || (outcome.error.kind == RequestTimeout && timeoutMs.None?)))
  {
  }
}
