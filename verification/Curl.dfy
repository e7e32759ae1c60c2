// The framing of one curl run, src/tools/http/curl-client.ts: what the script
// prints (lines 116-126) and what `parseCurlOutput` (138-176) reads back, with
// the cap of src/tools/support/output.ts.

module Curl {
  import opened Support
  import opened Text

  // ------------------------------------------------------------------------- cap

  datatype CappedText = CappedText(text: string, truncated: bool, originalLength: nat)

  function Notice(dropped: nat): string {
    ['\U{2026}'] + "[truncated " + Decimal(dropped) + " chars]"
  }

  function CapText(text: string, maxChars: int): CappedText {
    if |text| <= maxChars then CappedText(text, false, |text|)
    else CappedText(text[..Max(0, maxChars)] + Notice(|text| - maxChars), true, |text|)
  }

  // ----------------------------------------------------------------------- frames

  /** The five parts of the script's output. */
  datatype Frames = Frames(writeOut: string, exitText: string, headers: string, sizeText: string, body: string)

  function ResultMarker(delimiter: string): string {
    ['\n'] + delimiter + [' ']
  }

  function PartMarker(delimiter: string): string {
    ['\n'] + delimiter + ['\n']
  }

  /** What the script prints: `printf '\n%s %s\n'` after the write-out, then header dump, size and body. */
  function Framed(delimiter: string, f: Frames): string {
    f.writeOut + ResultMarker(delimiter) + (f.exitText + ['\n'] + FramedParts(delimiter, f))
  }

  function FramedParts(delimiter: string, f: Frames): string {
    f.headers + PartMarker(delimiter) + (f.sizeText + PartMarker(delimiter) + f.body)
  }

  /** `slice(0, indexOf)` and `slice(indexOf + 1)`; a missing newline is index -1. */
  function CutLine(text: string): (string, string) {
    var newline := IndexOf(text, ['\n']);
    if newline.Some? then (text[..newline.value], text[newline.value + 1..])
    else (text[..Max(0, |text| - 1)], text)
  }

  function Unframe(delimiter: string, stdout: string): Option<Frames> {
    var first :- IndexOf(stdout, ResultMarker(delimiter));
    var (exitText, rest) := CutLine(stdout[first + |delimiter| + 2..]);
    var parts := Split(rest, PartMarker(delimiter));
    Some(Frames(stdout[..first], exitText, parts[0], if |parts| > 1 then parts[1] else "0",
                Join(if |parts| > 2 then parts[2..] else [], PartMarker(delimiter))))
  }

  /** Neither the write-out nor the header dump holds a marker of its own. */
  ghost predicate Clean(delimiter: string, f: Frames) {
    && !Contains(f.writeOut, ResultMarker(delimiter))
    && !Contains(f.headers + ['\n'], PartMarker(delimiter))
  }

  // ------------------------------------------------------------- finding a marker

  lemma HeadOf(a: string, needle: string, b: string, overlap: nat)
    requires overlap <= |needle|
    ensures a + needle[..overlap] <= a + needle + b
  {
  }

  lemma SliceOfHead(s: string, head: string, lo: nat, hi: nat)
    requires head <= s && lo <= hi <= |head|
    ensures head[lo..hi] == s[lo..hi]
  {
  }

  /** A marker that starts with the only newline of its first characters is found where it was put. */
  lemma MarkerFound(a: string, needle: string, b: string, overlap: nat)
    requires overlap < |needle| && needle[0] == '\n'
    requires forall i :: 1 <= i < |needle| - overlap ==> needle[i] != '\n'
    requires !Contains(a + needle[..overlap], needle)
    ensures IndexOf(a + needle + b, needle) == Some(|a|)
  {
    var s := a + needle + b;
    HeadOf(a, needle, b, overlap);
    forall k | 0 <= k < |a|
      ensures !OccursAt(s, needle, k)
    {
      if k + |needle| <= |a| + overlap {
        SliceOfHead(s, a + needle[..overlap], k, k + |needle|);
        assert !OccursAt(a + needle[..overlap], needle, k);
      } else if k + |needle| <= |s| {
        assert s[k..k + |needle|][|a| - k] == s[|a|] == needle[0];
        assert needle[|a| - k] != '\n';
      }
    }
    assert s[|a|..|a| + |needle|] == needle;
    IndexIs(s, needle, |a|);
  }

  /** A marker inside the text before is found first. */
  lemma EarlierFound(a: string, overlap: nat, needle: string, b: string)
    requires overlap < |needle| && Contains(a + needle[..overlap], needle)
    ensures IndexOf(a + needle + b, needle).Some? && IndexOf(a + needle + b, needle).value < |a|
  {
    var s := a + needle + b;
    var k :| OccursAt(a + needle[..overlap], needle, k);
    HeadOf(a, needle, b, overlap);
    SliceOfHead(s, a + needle[..overlap], k, k + |needle|);
    assert OccursAt(s, needle, k);
  }

  lemma NewlineFound(line: string, rest: string)
    requires '\n' !in line
    ensures CutLine(line + ['\n'] + rest) == (line, rest)
  {
    var s := line + ['\n'] + rest;
    NoNeedle(line, ['\n']);
    assert line + ['\n'][..0] == line;
    MarkerFound(line, ['\n'], rest, 0);
    assert s[..|line|] == line && s[|line| + 1..] == rest;
  }

  lemma NoNeedle(text: string, needle: string)
    requires '\n' !in text && needle != [] && needle[0] == '\n'
    ensures !Contains(text, needle)
  {
    forall k
      ensures !OccursAt(text, needle, k)
    {
      if 0 <= k && k + |needle| <= |text| {
        assert text[k..k + |needle|][0] == text[k];
      }
    }
  }

  lemma SplitAtMarker(a: string, needle: string, b: string)
    requires needle != [] && IndexOf(a + needle + b, needle) == Some(|a|)
    ensures Split(a + needle + b, needle) == [a] + Split(b, needle)
  {
    var s := a + needle + b;
    assert s[..|a|] == a && s[|a| + |needle|..] == b;
  }

  // ------------------------------------------------------------------- round trip

  lemma PartsReadBack(delimiter: string, headers: string, sizeText: string, body: string)
    requires '\n' !in delimiter && '\n' !in sizeText && !Contains(headers + ['\n'], PartMarker(delimiter))
    ensures var m := PartMarker(delimiter);
            Split(headers + m + (sizeText + m + body), m) == [headers, sizeText] + Split(body, m)
  {
    var m := PartMarker(delimiter);
    assert m[..1] == ['\n'];
    MarkerFound(headers, m, sizeText + m + body, 1);
    SplitAtMarker(headers, m, sizeText + m + body);
    NoMarkerInLine(sizeText, m);
    MarkerFound(sizeText, m, body, 1);
    SplitAtMarker(sizeText, m, body);
  }

  lemma NoMarkerInLine(line: string, m: string)
    requires '\n' !in line && |m| >= 2 && m[0] == '\n'
    ensures !Contains(line + m[..1], m)
  {
    var s := line + m[..1];
    forall k
      ensures !OccursAt(s, m, k)
    {
      if 0 <= k && k + |m| <= |s| {
        assert s[k..k + |m|][0] == s[k] == line[k];
      }
    }
  }

  /**
   * The parser reads back exactly what the script printed - any exit code, any
   * size, any body, even one that holds the delimiter line - if and only if
   * neither the write-out nor the header dump holds a marker.
   */
  lemma FramesReadBack(delimiter: string, f: Frames)
    requires '\n' !in delimiter && '\n' !in f.exitText && '\n' !in f.sizeText
    ensures Unframe(delimiter, Framed(delimiter, f)) == Some(f) <==> Clean(delimiter, f)
  {
    var r, m := ResultMarker(delimiter), PartMarker(delimiter);
    var after := f.exitText + ['\n'] + FramedParts(delimiter, f);
    assert f.writeOut + r[..0] == f.writeOut;
    if Contains(f.writeOut, r) {
      EarlierFound(f.writeOut, 0, r, after);
    } else {
      MarkerFound(f.writeOut, r, after, 0);
      ResultRead(delimiter, f);
      NewlineFound(f.exitText, FramedParts(delimiter, f));
      if Contains(f.headers + ['\n'], m) {
        assert m[..1] == ['\n'];
        EarlierFound(f.headers, 1, m, f.sizeText + m + f.body);
        ShorterHead(FramedParts(delimiter, f), m, |f.headers|);
      } else {
        PartsReadBack(delimiter, f.headers, f.sizeText, f.body);
        JoinSplit(f.body, m);
        assert ([f.headers, f.sizeText] + Split(f.body, m))[2..] == Split(f.body, m);
      }
    }
  }

  lemma ResultRead(delimiter: string, f: Frames)
    requires IndexOf(Framed(delimiter, f), ResultMarker(delimiter)) == Some(|f.writeOut|)
    ensures Framed(delimiter, f)[..|f.writeOut|] == f.writeOut
    ensures Framed(delimiter, f)[|f.writeOut| + |delimiter| + 2..] == f.exitText + ['\n'] + FramedParts(delimiter, f)
  {
  }

  lemma ShorterHead(s: string, m: string, bound: nat)
    requires m != [] && IndexOf(s, m).Some? && IndexOf(s, m).value < bound
    ensures |Split(s, m)[0]| < bound
  {
  }

  // --------------------------------------------------------------------- response

  datatype Spec = Spec(url: string, maxBodyChars: int)
  datatype Response = Response(url: string, finalUrl: string, status: int, headersText: string, body: string,
                               bodyTruncated: bool, bodyBytes: int, redirects: int)
  datatype CurlError = NoResultMarker | CurlFailed(exitCode: Option<int>)

  function ParseCurlOutput(spec: Spec, delimiter: string, stdout: string, number: NumberFn): Result<Response, CurlError> {
    match Unframe(delimiter, stdout)
    case None => Err(NoResultMarker)
    case Some(f) => ResponseOf(spec, f, number)
  }

  function ResponseOf(spec: Spec, f: Frames, number: NumberFn): Result<Response, CurlError> {
    var exitCode := number(Trim(f.exitText));
    var (statusText, redirectsText, final) := Fields(Trim(f.writeOut));
    var status := number(statusText).GetOr(0);
    if exitCode != Some(0) && status == 0 then Err(CurlFailed(exitCode))
    else
      var redirects := number(redirectsText).GetOr(0);
      var bytes := number(Trim(f.sizeText)).GetOr(0);
      var body := CapText(f.body, spec.maxBodyChars);
      Ok(Response(spec.url, if final == "" then spec.url else final, status, f.headers, body.text,
                  body.truncated || bytes > |f.body|, bytes, redirects))
  }

  /** The fields curl prints at the end of a transfer. */
  datatype Printed = Printed(statusText: string, redirectsText: string, finalUrl: string)

  /**
   * One run of the script: curl's own fields, none when curl is missing or was
   * killed, the header dump, and the part of the body that `head -c` lets through.
   */
  datatype CurlRun = CurlRun(printed: Option<Printed>, exitText: string, headers: string, padding: string, sizeText: string,
                             body: string)

  function Line(p: Printed): string {
    p.statusText + [' '] + (p.redirectsText + [' '] + p.finalUrl)
  }

  function WriteOut(run: CurlRun): string {
    if run.printed.None? then "" else Line(run.printed.value)
  }

  function Stdout(delimiter: string, run: CurlRun): string {
    Framed(delimiter, Frames(WriteOut(run), run.exitText, run.headers, run.padding + run.sizeText, run.body))
  }

  predicate Plain(text: string) {
    text != "" && forall i :: 0 <= i < |text| ==> !IsSpace(text[i])
  }

  /** Numbers are printed without blanks, except for the padding some `wc` put in front; the address is trimmed. */
  predicate WellPrinted(run: CurlRun) {
    && (run.printed.Some? ==> WellFormed(run.printed.value)) && Plain(run.exitText) && Plain(run.sizeText)
    && (forall i :: 0 <= i < |run.padding| ==> run.padding[i] == ' ')
  }

  predicate WellFormed(p: Printed) {
    Plain(p.statusText) && Plain(p.redirectsText) && Trimmed(p.finalUrl)
  }

  /** `Number` of nothing and of `0`. */
  predicate ReadsZero(number: NumberFn) {
    number("") == Some(0) && number("0") == Some(0)
  }

  lemma PlainHasNo(text: string, c: char)
    requires Plain(text) && IsSpace(c)
    ensures c !in text && Trimmed(text)
  {
  }

  lemma TrimPadded(padding: string, text: string)
    requires Plain(text) && forall i :: 0 <= i < |padding| ==> IsSpace(padding[i])
    ensures Trim(padding + text) == text
  {
    var s := padding + text;
    var start := SkipSpaces(s, 0);
    assert forall i :: 0 <= i < |padding| ==> s[i] == padding[i];
    assert s[|padding|] == text[0];
    assert start == |padding|;
    assert s[|s| - 1] == text[|text| - 1];
    assert DropSpaces(s, start, |s|) == |s|;
    assert s[|padding|..] == text;
  }

  /**
   * What the tool reports of a run: a failure without a response is an error,
   * everything else is passed on.
   */
  function Report(spec: Spec, run: CurlRun, number: NumberFn): Result<Response, CurlError> {
    var status := if run.printed.None? then 0 else number(run.printed.value.statusText).GetOr(0);
    var redirects := if run.printed.None? then 0 else number(run.printed.value.redirectsText).GetOr(0);
    var final := if run.printed.None? then "" else run.printed.value.finalUrl;
    var bytes := number(run.sizeText).GetOr(0);
    if number(run.exitText) != Some(0) && status == 0 then Err(CurlFailed(number(run.exitText)))
    else
      Ok(Response(spec.url, if final == "" then spec.url else final, status, run.headers,
                  CapText(run.body, spec.maxBodyChars).text,
                  |run.body| > spec.maxBodyChars || bytes > |run.body|, bytes, redirects))
  }

  /** The first two fields and the rest, joined again. */
  function Fields(text: string): (string, string, string) {
    var fields := Split(text, [' ']);
    (fields[0], if |fields| > 1 then fields[1] else "0", Join(if |fields| > 2 then fields[2..] else [], [' ']))
  }

  lemma FieldsOf(p: Printed)
    requires WellFormed(p)
    ensures Fields(Trim(Line(p))) == (p.statusText, p.redirectsText, p.finalUrl)
  {
    if p.finalUrl == "" {
      TwoFields(p.statusText, p.redirectsText);
    } else {
      ThreeFields(p.statusText, p.redirectsText, p.finalUrl);
      JoinSplit(p.finalUrl, [' ']);
      AfterTwo(Trim(Line(p)), p.statusText, p.redirectsText, Split(p.finalUrl, [' ']));
    }
  }

  lemma NoFields()
    ensures Fields(Trim("")) == ("", "0", "")
  {
    assert Trimmed("");
    SplitNone("", ' ');
    assert Join([], [' ']) == "";
  }

  lemma AfterTwo(text: string, a: string, b: string, rest: seq<string>)
    requires Split(text, [' ']) == [a] + ([b] + rest) && rest != []
    ensures Fields(text) == (a, b, Join(rest, [' ']))
  {
    assert ([a] + ([b] + rest))[2..] == rest;
  }

  /** Without an address the last blank is trimmed away. */
  lemma TwoFields(a: string, b: string)
    requires Plain(a) && Plain(b)
    ensures Split(Trim(a + [' '] + (b + [' '] + "")), [' ']) == [a, b]
  {
    PlainHasNo(a, ' ');
    PlainHasNo(b, ' ');
    var short := a + [' '] + b;
    assert a + [' '] + (b + [' '] + "") == short + [' '];
    assert short[0] == a[0] && short[|short| - 1] == b[|b| - 1];
    TrimOneBlank(short);
    SplitFirst(a, ' ', b);
    SplitNone(b, ' ');
  }

  lemma ThreeFields(a: string, b: string, c: string)
    requires Plain(a) && Plain(b) && Trimmed(c) && c != ""
    ensures Split(Trim(a + [' '] + (b + [' '] + c)), [' ']) == [a] + ([b] + Split(c, [' ']))
  {
    PlainHasNo(a, ' ');
    PlainHasNo(b, ' ');
    var s := a + [' '] + (b + [' '] + c);
    assert s[0] == a[0] && s[|s| - 1] == c[|c| - 1];
    SplitFirst(a, ' ', b + [' '] + c);
    SplitFirst(b, ' ', c);
  }

  lemma TrimOneBlank(s: string)
    requires s != "" && Trimmed(s)
    ensures Trim(s + [' ']) == s
  {
    var t := s + [' '];
    assert t[0] == s[0] && t[|s|] == ' ' && t[|s| - 1] == s[|s| - 1];
    assert SkipSpaces(t, 0) == 0;
    assert DropSpaces(t, 0, |t|) == |s|;
    assert t[0..|s|] == s;
  }

  /** Without curl, or when it was killed, nothing is printed and the exit code is not 0: an error that carries the code. */
  lemma NothingPrinted(spec: Spec, delimiter: string, run: CurlRun, number: NumberFn)
    requires '\n' !in delimiter && WellPrinted(run) && ReadsZero(number) && run.printed.None? && number(run.exitText) != Some(0)
    requires !Contains(run.headers + ['\n'], PartMarker(delimiter))
    ensures ParseCurlOutput(spec, delimiter, Stdout(delimiter, run), number) == Err(CurlFailed(number(run.exitText)))
  {
    assert forall k :: !OccursAt("", ResultMarker(delimiter), k);
    CurlRoundTrip(spec, delimiter, run, number);
  }

  /** Parsing the script's output reports the run, whatever its exit code, size and body. */
  lemma CurlRoundTrip(spec: Spec, delimiter: string, run: CurlRun, number: NumberFn)
    requires '\n' !in delimiter && WellPrinted(run) && ReadsZero(number)
    requires !Contains(WriteOut(run), ResultMarker(delimiter)) && !Contains(run.headers + ['\n'], PartMarker(delimiter))
    ensures ParseCurlOutput(spec, delimiter, Stdout(delimiter, run), number) == Report(spec, run, number)
  {
    var f := Frames(WriteOut(run), run.exitText, run.headers, run.padding + run.sizeText, run.body);
    PlainHasNo(run.exitText, '\n');
    PlainHasNo(run.sizeText, '\n');
    FramesReadBack(delimiter, f);
    ResponseIsReport(spec, run, number);
  }

  lemma ResponseIsReport(spec: Spec, run: CurlRun, number: NumberFn)
    requires WellPrinted(run) && ReadsZero(number)
    ensures ResponseOf(spec, Frames(WriteOut(run), run.exitText, run.headers, run.padding + run.sizeText, run.body), number)
            == Report(spec, run, number)
  {
    PlainHasNo(run.exitText, '\n');
    TrimPadded(run.padding, run.sizeText);
    if run.printed.None? {
      NoFields();
    } else {
      FieldsOf(run.printed.value);
    }
  }

  /**
   * For a body of single-byte characters, of which the script passes on the first
   * `4 * maxBodyChars`: the reported body is the whole body exactly when it is not
   * marked as truncated, and that is when it fits the limit.
   */
  lemma BodyWholeIffNotTruncated(spec: Spec, full: string, run: CurlRun, number: NumberFn)
    requires spec.maxBodyChars >= 0 && run.body == full[..Min(|full|, 4 * spec.maxBodyChars)]
    requires number(run.sizeText) == Some(|full|) && Report(spec, run, number).Ok?
    ensures var r := Report(spec, run, number).value;
            && (r.bodyTruncated <==> |full| > spec.maxBodyChars)
            && (!r.bodyTruncated ==> r.body == full)
            && (spec.maxBodyChars > 0 && r.bodyTruncated ==>
                  r.body == full[..spec.maxBodyChars] + Notice(|run.body| - spec.maxBodyChars))
  {
    if |full| <= spec.maxBodyChars {
      assert run.body == full;
    }
  }
}
