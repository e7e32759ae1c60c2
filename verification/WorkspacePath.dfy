// src/tools/support/workspace-path.ts: collapsing paths, and the test that keeps
// a resolved path inside the workspace.

module WorkspacePath {
  import opened Support
  import opened Text

  const SLASH := ['/']

  /** A directory or file name: what is left once `.`, `..` and repeated slashes are gone. */
  predicate Proper(segment: string) {
    segment != "" && segment != ['.'] && segment != ['.', '.'] && '/' !in segment
  }

  predicate AllProper(segments: seq<string>) {
    forall i :: 0 <= i < |segments| ==> Proper(segments[i])
  }

  /** One step in a directory tree whose root is its own parent. */
  function Enter(segments: seq<string>, part: string): seq<string> {
    if part == "" || part == ['.'] then segments
    else if part == ['.', '.'] then (if segments == [] then [] else segments[..|segments| - 1])
    else segments + [part]
  }

  /** Where one stands after following the parts one by one. */
  function Walk(start: seq<string>, parts: seq<string>): seq<string>
    decreases |parts|
  {
    if parts == [] then start else Walk(Enter(start, parts[0]), parts[1..])
  }

  function Parts(path: string): seq<string> {
    Split(path, SLASH)
  }

  function SegmentsOf(path: string): seq<string> {
    Walk([], Parts(path))
  }

  function PathOf(segments: seq<string>): string {
    SLASH + Join(segments, SLASH)
  }

  method NormalisePosix(path: string) returns (r: string)
    ensures r == PathOf(SegmentsOf(path))
  {
    var segments: seq<string> := [];
    var parts := Split(path, SLASH);
    for i := 0 to |parts|
      invariant Walk(segments, parts[i..]) == SegmentsOf(path)
    {
      var segment := parts[i];
      assert parts[i..][0] == segment && parts[i..][1..] == parts[i + 1..];
      if segment == "" || segment == ['.'] {
      } else if segment == ['.', '.'] {
        if segments != [] {
          segments := segments[..|segments| - 1];
        }
      } else {
        segments := segments + [segment];
      }
    }
    r := ['/'] + Join(segments, SLASH);
  }

  // -------------------------------------------------------------------- canonical

  lemma {:induction false} WalkIsProper(start: seq<string>, parts: seq<string>)
    requires AllProper(start) && forall i :: 0 <= i < |parts| ==> '/' !in parts[i]
    ensures AllProper(Walk(start, parts))
    decreases |parts|
  {
    if parts != [] {
      WalkIsProper(Enter(start, parts[0]), parts[1..]);
    }
  }

  lemma {:induction false} WalkProper(start: seq<string>, parts: seq<string>)
    requires AllProper(parts)
    ensures Walk(start, parts) == start + parts
    decreases |parts|
  {
    if parts != [] {
      WalkProper(start + [parts[0]], parts[1..]);
      assert start + [parts[0]] + parts[1..] == start + parts;
    } else {
      assert start + parts == start;
    }
  }

  lemma {:induction false} WalkAppend(start: seq<string>, a: seq<string>, b: seq<string>)
    ensures Walk(start, a + b) == Walk(Walk(start, a), b)
    decreases |a|
  {
    if a == [] {
      assert a + b == b;
    } else {
      assert (a + b)[1..] == a[1..] + b;
      WalkAppend(Enter(start, a[0]), a[1..], b);
    }
  }

  /** A normalised path has no empty, `.` or `..` segment. */
  lemma SegmentsAreProper(path: string)
    ensures AllProper(SegmentsOf(path))
  {
    SplitParts(path, '/');
    WalkIsProper([], Parts(path));
  }

  /** The path of proper segments splits into the empty first part and these segments. */
  lemma PartsOfPath(segments: seq<string>)
    requires AllProper(segments)
    ensures Parts(PathOf(segments)) == [""] + if segments == [] then [""] else segments
  {
    var tail := Join(segments, SLASH);
    SplitFirst("", '/', tail);
    assert "" + ['/'] + tail == PathOf(segments);
    if segments == [] {
      SplitNone("", '/');
    } else {
      SplitJoin(segments, '/');
    }
  }

  /** Normalising is the identity exactly on the canonical paths, so doing it twice changes nothing more. */
  lemma PathRoundTrip(segments: seq<string>)
    requires AllProper(segments)
    ensures SegmentsOf(PathOf(segments)) == segments
  {
    PartsOfPath(segments);
    if segments == [] {
      WalkAppend([], [""], [""]);
    } else {
      WalkAppend([], [""], segments);
      WalkProper([], segments);
      assert [] + segments == segments;
    }
  }

  lemma NormaliseIdempotent(path: string)
    ensures SegmentsOf(PathOf(SegmentsOf(path))) == SegmentsOf(path)
    ensures PathOf(SegmentsOf(path)) == path <==> exists segments :: AllProper(segments) && path == PathOf(segments)
  {
    SegmentsAreProper(path);
    PathRoundTrip(SegmentsOf(path));
    if segments :| AllProper(segments) && path == PathOf(segments) {
      PathRoundTrip(segments);
    }
  }

  // ---------------------------------------------------------------------- prefixes

  lemma {:induction false} JoinConcat(a: seq<string>, b: seq<string>)
    requires a != [] && b != []
    ensures Join(a + b, SLASH) == Join(a, SLASH) + SLASH + Join(b, SLASH)
  {
    if |a| == 1 {
      assert (a + b)[1..] == b;
    } else {
      assert (a + b)[1..] == a[1..] + b;
      JoinConcat(a[1..], b);
    }
  }

  /** The string test `startsWith(root + "/")` is the structural one: the root's segments come first, with more behind. */
  lemma PrefixIsStructural(root: seq<string>, candidate: seq<string>)
    requires AllProper(root) && AllProper(candidate) && root != []
    ensures PathOf(root) + SLASH <= PathOf(candidate) <==> root < candidate
  {
    if PathOf(root) + SLASH <= PathOf(candidate) {
      var tail := PathOf(candidate)[|PathOf(root)| + 1..];
      TailOf(root, candidate, tail);
      SplitJoinTail(root, '/', tail);
      if candidate != [] {
        SplitJoin(candidate, '/');
      }
    } else if root < candidate {
      var more := candidate[|root|..];
      assert candidate == root + more;
      JoinConcat(root, more);
    }
  }

  lemma TailOf(root: seq<string>, candidate: seq<string>, tail: string)
    requires PathOf(root) + SLASH <= PathOf(candidate) && tail == PathOf(candidate)[|PathOf(root)| + 1..]
    ensures Join(candidate, SLASH) == Join(root, SLASH) + SLASH + tail
  {
    assert PathOf(candidate) == PathOf(root) + SLASH + tail;
    assert PathOf(candidate)[1..] == Join(candidate, SLASH);
    assert (PathOf(root) + SLASH + tail)[1..] == Join(root, SLASH) + SLASH + tail;
  }

  /** Nothing but the root itself starts with two slashes. */
  lemma NothingBelowRoot(candidate: seq<string>)
    requires AllProper(candidate)
    ensures !(PathOf([]) + SLASH <= PathOf(candidate))
  {
    if candidate != [] {
      assert Join(candidate, SLASH)[0] == candidate[0][0];
      assert PathOf(candidate)[1] == candidate[0][0];
      assert (PathOf([]) + SLASH)[1] == '/';
    }
  }

  lemma PathInjective(a: seq<string>, b: seq<string>)
    requires AllProper(a) && AllProper(b)
    ensures PathOf(a) == PathOf(b) <==> a == b
  {
    PathRoundTrip(a);
    PathRoundTrip(b);
  }

  // ----------------------------------------------------------------------- resolve

  datatype PathError = EmptyPath | HasNul | OutsideWorkspace

  method ResolveWorkspacePath(workspaceRoot: string, input: string) returns (r: Result<string, PathError>)
    ensures r == Resolved(workspaceRoot, input)
  {
    if |input| == 0 {
      return Err(EmptyPath);
    }
    if '\0' in input {
      return Err(HasNul);
    }
    var root := NormalisePosix(workspaceRoot);
    var candidate;
    if input[0] == '/' {
      candidate := NormalisePosix(input);
    } else {
      candidate := NormalisePosix(root + ['/'] + input);
    }
    InsideIsStructural(SegmentsOf(workspaceRoot), if input[0] == '/' then SegmentsOf(input) else SegmentsOf(root + ['/'] + input)) by {
      SegmentsAreProper(workspaceRoot);
      SegmentsAreProper(input);
      SegmentsAreProper(root + ['/'] + input);
    }
    RelativeWalk(workspaceRoot, input);
    if candidate == root || root + ['/'] <= candidate {
      return Ok(candidate);
    }
    r := Err(OutsideWorkspace);
  }

  /** Where the input leads: from the root of the tree, or from the workspace root. */
  function Target(workspaceRoot: string, input: string): seq<string>
    requires input != ""
  {
    Walk(if input[0] == '/' then [] else SegmentsOf(workspaceRoot), Parts(input))
  }

  /** Inside the workspace; a workspace at `/` holds only `/` itself. */
  predicate Accepts(root: seq<string>, candidate: seq<string>) {
    root <= candidate && (root == [] ==> candidate == [])
  }

  /** What resolving means: follow the input, and refuses what ends outside. */
  function Resolved(workspaceRoot: string, input: string): Result<string, PathError> {
    if input == "" then Err(EmptyPath)
    else if '\0' in input then Err(HasNul)
    else if Accepts(SegmentsOf(workspaceRoot), Target(workspaceRoot, input)) then Ok(PathOf(Target(workspaceRoot, input)))
    else Err(OutsideWorkspace)
  }

  lemma InsideIsStructural(root: seq<string>, candidate: seq<string>)
    requires AllProper(root) && AllProper(candidate)
    ensures PathOf(candidate) == PathOf(root) || PathOf(root) + SLASH <= PathOf(candidate) <==> Accepts(root, candidate)
  {
    PathInjective(candidate, root);
    if root == [] {
      NothingBelowRoot(candidate);
    } else {
      PrefixIsStructural(root, candidate);
    }
  }

  /** A relative input is followed from the workspace root. */
  lemma RelativeWalk(workspaceRoot: string, input: string)
    ensures SegmentsOf(PathOf(SegmentsOf(workspaceRoot)) + ['/'] + input) == Walk(SegmentsOf(workspaceRoot), Parts(input))
  {
    var root := SegmentsOf(workspaceRoot);
    SegmentsAreProper(workspaceRoot);
    if root == [] {
      RootSlash(input);
      WalkAppend([], ["", ""], Parts(input));
    } else {
      PartsBelow(root, input);
      WalkAppend([], [""] + root, Parts(input));
      WalkAppend([], [""], root);
      WalkProper([], root);
      assert [] + root == root;
    }
  }

  /** What one more part does to a path: `..` goes up and stops at the root, `.` and nothing stay, a name goes down. */
  lemma OnePart(segments: seq<string>, part: string)
    requires AllProper(segments) && '/' !in part
    ensures var there := SegmentsOf(PathOf(segments) + ['/'] + part);
            && (Proper(part) ==> there == segments + [part])
            && (part == "" || part == ['.'] ==> there == segments)
            && (part == ['.', '.'] && segments == [] ==> there == [])
            && (part == ['.', '.'] && segments != [] ==> there == segments[..|segments| - 1] && !Accepts(segments, there))
  {
    PathRoundTrip(segments);
    RelativeWalk(PathOf(segments), part);
    SplitNone(part, '/');
    assert Walk(segments, [part]) == Enter(segments, part);
    if part == ['.', '.'] && segments != [] {
      assert !(segments <= segments[..|segments| - 1]);
    }
  }

  /** A name and then `..` lead back. */
  lemma DownAndUp(segments: seq<string>, name: string)
    requires AllProper(segments) && Proper(name)
    ensures SegmentsOf(PathOf(segments) + ['/'] + (name + ['/', '.', '.'])) == segments
  {
    PathRoundTrip(segments);
    RelativeWalk(PathOf(segments), name + ['/', '.', '.']);
    SplitFirst(name, '/', ['.', '.']);
    SplitNone(['.', '.'], '/');
    assert name + ['/'] + ['.', '.'] == name + ['/', '.', '.'];
    assert Parts(name + ['/', '.', '.']) == [name, ['.', '.']];
    assert Walk(segments, [name, ['.', '.']]) == Walk(segments + [name], [['.', '.']]);
    assert (segments + [name])[..|segments|] == segments;
  }

  lemma PartsBelow(root: seq<string>, input: string)
    requires AllProper(root) && root != []
    ensures Parts(PathOf(root) + ['/'] + input) == [""] + root + Parts(input)
  {
    var path := Join(root, SLASH) + SLASH + input;
    SplitJoinTail(root, '/', input);
    SplitFirst("", '/', path);
    assert PathOf(root) + ['/'] + input == "" + ['/'] + path;
    ConsAppend([""] + root, Parts(input));
  }

  lemma RootSlash(input: string)
    ensures Parts(PathOf([]) + ['/'] + input) == ["", ""] + Parts(input)
  {
    SplitFirst("", '/', ['/'] + input);
    SplitFirst("", '/', input);
    assert PathOf([]) + ['/'] + input == "" + ['/'] + (['/'] + input);
    assert "" + ['/'] + input == ['/'] + input;
  }

  // ------------------------------------------------------------------- guarantees

  /**
   * For a workspace root other than `/`, a non-empty input without NUL is accepted
   * if and only if it leads to the root or below it, and the answer is canonical.
   */
  lemma AcceptedIffInside(workspaceRoot: string, input: string)
    requires input != "" && '\0' !in input && SegmentsOf(workspaceRoot) != []
    ensures Resolved(workspaceRoot, input).Ok? <==> SegmentsOf(workspaceRoot) <= Target(workspaceRoot, input)
    ensures Resolved(workspaceRoot, input).Ok? ==> SegmentsOf(Resolved(workspaceRoot, input).value) == Target(workspaceRoot, input)
  {
    TargetIsProper(workspaceRoot, input);
    PathRoundTrip(Target(workspaceRoot, input));
  }

  lemma TargetIsProper(workspaceRoot: string, input: string)
    requires input != ""
    ensures AllProper(Target(workspaceRoot, input))
  {
    SplitParts(input, '/');
    SegmentsAreProper(workspaceRoot);
    WalkIsProper(if input[0] == '/' then [] else SegmentsOf(workspaceRoot), Parts(input));
  }

  /** An accepted path is accepted again, unchanged. */
  lemma ResolvedTwice(workspaceRoot: string, input: string)
    requires Resolved(workspaceRoot, input).Ok?
    ensures '\0' !in Resolved(workspaceRoot, input).value ==>
              Resolved(workspaceRoot, Resolved(workspaceRoot, input).value) == Resolved(workspaceRoot, input)
  {
    TargetIsProper(workspaceRoot, input);
    PathRoundTrip(Target(workspaceRoot, input));
  }

  /** With `/` as the root the string test compares with `//`: nothing below the root is accepted. */
  lemma RootWorkspaceRefusesAll(input: string)
    requires input != "" && '\0' !in input
    ensures Resolved(SLASH, input).Ok? <==> Target(SLASH, input) == []
  {
    RootHasNoSegments();
  }

  lemma RootHasNoSegments()
    ensures SegmentsOf(SLASH) == []
  {
    PathRoundTrip([]);
    assert PathOf([]) == SLASH;
  }

  lemma RootWorkspaceCounterexample()
    ensures SegmentsOf(SLASH) <= Target(SLASH, "a") && Resolved(SLASH, "a") == Err(OutsideWorkspace)
  {
    RootHasNoSegments();
    SplitNone("a", '/');
    assert Walk([], ["a"]) == ["a"];
  }
}
