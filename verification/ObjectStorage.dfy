// The key grammar of src/storage/keys.ts and the two-file object store of
// src/storage/local/filesystem-storage.ts, as atomic steps on a file system that
// may stop between any two of them.

module Keys {
  import opened Support
  import opened Text

  const MAX_KEY_LENGTH := 512

  /** The pattern `^[A-Za-z0-9][A-Za-z0-9._-]*$`. */
  predicate IsSegment(s: string) {
    s != "" && IsAlphanumeric(s[0])
    && forall i :: 0 <= i < |s| ==> IsAlphanumeric(s[i]) || s[i] == '.' || s[i] == '_' || s[i] == '-'
  }

  predicate ValidKey(key: string) {
    && 0 < |key| <= MAX_KEY_LENGTH
    && forall i :: 0 <= i < |Split(key, ['/'])| ==> IsSegment(Split(key, ['/'])[i])
  }

  datatype KeyProblem = EmptyKey | TooLong | EmptySegment | DotSegment | BadSegment

  predicate FirstBad(segments: seq<string>, i: nat)
    requires i < |segments|
  {
    !IsSegment(segments[i]) && forall j :: 0 <= j < i ==> IsSegment(segments[j])
  }

  predicate Describes(problem: KeyProblem, segment: string) {
    && (problem == EmptySegment <==> segment == "")
    && (problem == DotSegment <==> segment == "." || segment == "..")
    && (problem == EmptySegment || problem == DotSegment || problem == BadSegment)
  }

  /** At most one problem is reported: the first one met. */
  method KeyProblems(key: string) returns (problems: seq<KeyProblem>)
    ensures problems == [] <==> ValidKey(key)
    ensures |problems| <= 1
    ensures EmptyKey in problems <==> key == ""
    ensures TooLong in problems <==> |key| > MAX_KEY_LENGTH
    ensures problems != [] && 0 < |key| <= MAX_KEY_LENGTH ==>
              exists i :: 0 <= i < |Split(key, ['/'])| && FirstBad(Split(key, ['/']), i) && Describes(problems[0], Split(key, ['/'])[i])
  {
    if |key| == 0 {
      return [EmptyKey];
    }
    if |key| > MAX_KEY_LENGTH {
      return [TooLong];
    }
    problems := [];
    var segments := Split(key, ['/']);
    for i := 0 to |segments|
      invariant problems == [] && forall j :: 0 <= j < i ==> IsSegment(segments[j])
    {
      var segment := segments[i];
      assert !IsSegment(segment) ==> FirstBad(segments, i);
      if segment == "" {
        return [EmptySegment];
      }
      if segment == "." || segment == ".." {
        return [DotSegment];
      }
      if !IsSegment(segment) {
        return [BadSegment];
      }
    }
  }

  /** Empty, or a valid key with at most one slash behind it. */
  predicate ValidPrefix(prefix: string) {
    prefix == "" || ValidKey(if prefix[|prefix| - 1] == '/' then prefix[..|prefix| - 1] else prefix)
  }

  /** No key starts or ends with a slash, and none climbs: no part is empty or dots only. */
  lemma KeysStayInside(key: string)
    requires ValidKey(key)
    ensures forall i :: 0 <= i < |Split(key, ['/'])| ==>
              Split(key, ['/'])[i] != "" && Split(key, ['/'])[i] != "." && Split(key, ['/'])[i] != ".."
              && Split(key, ['/'])[i][0] !in {'.', '_', '-'}
    ensures Join(Split(key, ['/']), ['/']) == key
  {
    JoinSplit(key, ['/']);
  }
}

module ObjectStorage {
  import opened Support
  import opened Text
  import Lists
  import opened Keys

  type Bytes = seq<bv8>

  datatype Metadata = Metadata(key: string, sizeBytes: nat, contentType: Option<string>, updatedAt: string)
  datatype Data = Body(bytes: Bytes) | Description(metadata: Metadata) | Partial
  datatype StoredObject = StoredObject(metadata: Metadata, body: Bytes)

  /** Every file by its path below the storage root. */
  type Files = map<string, Data>

  // ------------------------------------------------------------------------ paths

  const OBJECTS := "objects/"
  const METADATA := "metadata/"
  const JSON := ".json"
  const TMP := ".tmp"

  function ObjectPath(key: string): string { OBJECTS + key }

  function MetadataPath(key: string): string { METADATA + key + JSON }

  predicate EndsWith(s: string, suffix: string) {
    |suffix| <= |s| && s[|s| - |suffix|..] == suffix
  }

  /** `${path}.${pid}.${random}.tmp` */
  predicate IsTemp(temp: string, path: string) {
    |path| < |temp| && temp[..|path|] == path && EndsWith(temp, TMP)
  }

  lemma ObjectPathInjective(a: string, b: string)
    ensures ObjectPath(a) == ObjectPath(b) <==> a == b
  {
    assert ObjectPath(a)[|OBJECTS|..] == a && ObjectPath(b)[|OBJECTS|..] == b;
  }

  lemma MetadataPathInjective(a: string, b: string)
    ensures MetadataPath(a) == MetadataPath(b) <==> a == b
  {
    KeyOfPath(a);
    KeyOfPath(b);
  }

  /** Cutting directory and suffix off a metadata path gives the key, as the listing does. */
  lemma KeyOfPath(key: string)
    ensures EndsWith(MetadataPath(key), JSON)
    ensures MetadataPath(key)[|METADATA|..|MetadataPath(key)| - |JSON|] == key
  {
  }

  lemma AreasDiffer(a: string, b: string)
    ensures ObjectPath(a) != MetadataPath(b)
  {
    assert ObjectPath(a)[0] == 'o' && MetadataPath(b)[0] == 'm';
  }

  /**
   * The metadata file of one key lies in a directory that is the metadata path of
   * another exactly when its key continues the other with `.json/`.
   */
  lemma MetadataInside(key: string, other: string)
    ensures MetadataPath(key) + "/" <= MetadataPath(other) <==> key + ".json/" <= other
  {
    var long := key + ".json/";
    assert MetadataPath(key) + "/" == METADATA + long;
    if long <= other {
      assert MetadataPath(other)[..|METADATA + long|] == METADATA + long;
    }
    if METADATA + long <= MetadataPath(other) {
      assert METADATA + long == MetadataPath(other)[..|METADATA + long|];
      assert (METADATA + long)[|METADATA|..] == long;
      KeyOfPath(other);
      // the slash at the end cannot lie in the suffix
      assert (METADATA + long)[|METADATA| + |long| - 1] == '/';
      assert |long| <= |other|;
      assert other == MetadataPath(other)[|METADATA|..][..|other|];
      assert long == other[..|long|];
    }
  }

  /** A temporary file is never a metadata file, and lies in the area of its path. */
  lemma TempIsNoMetadata(temp: string, path: string, key: string)
    requires IsTemp(temp, path)
    ensures temp != MetadataPath(key)
  {
    KeyOfPath(key);
    assert temp[|temp| - 1] == TMP[3] == 'p';
    assert MetadataPath(key)[|MetadataPath(key)| - 1] == JSON[4] == 'n';
  }

  lemma TempOfMetadata(temp: string, key: string, other: string)
    requires IsTemp(temp, MetadataPath(key))
    ensures temp != ObjectPath(other)
  {
    assert temp[0] == temp[..|MetadataPath(key)|][0] == 'm';
    assert ObjectPath(other)[0] == 'o';
  }

  // ------------------------------------------------------------------ atomic steps

  datatype Step = WriteTemp(temp: string, data: Data) | Rename(temp: string, path: string) | Remove(path: string)

  function Do(files: Files, step: Step): Files {
    match step
    case WriteTemp(temp, data) => files[temp := data]
    case Rename(temp, path) => if temp in files then (files - {temp})[path := files[temp]] else files
    case Remove(path) => files - {path}
  }

  function Run(files: Files, steps: seq<Step>): Files
    decreases |steps|
  {
    if steps == [] then files else Run(Do(files, steps[0]), steps[1..])
  }

  /** How one `atomicWrite` went: through, stopped by a crash, or failed and (perhaps) cleaned up. */
  datatype WriteFate =
    | Renamed
    | CrashedBeforeWrite
    | CrashedInWrite
    | CrashedBeforeRename
    | MkdirFailed
    | WriteFailed(cleaned: bool)
    | RenameFailed(cleaned: bool)

  predicate IsCrash(fate: WriteFate) {
    fate.CrashedBeforeWrite? || fate.CrashedInWrite? || fate.CrashedBeforeRename?
  }

  function Cleanup(temp: string, cleaned: bool): seq<Step> {
    if cleaned then [Remove(temp)] else []
  }

  function WriteSteps(path: string, data: Data, temp: string, fate: WriteFate): seq<Step> {
    match fate
    case Renamed => [WriteTemp(temp, data), Rename(temp, path)]
    case CrashedBeforeWrite => []
    case CrashedInWrite => [WriteTemp(temp, Partial)]
    case CrashedBeforeRename => [WriteTemp(temp, data)]
    case MkdirFailed => []
    case WriteFailed(cleaned) => [WriteTemp(temp, Partial)] + Cleanup(temp, cleaned)
    case RenameFailed(cleaned) => [WriteTemp(temp, data)] + Cleanup(temp, cleaned)
  }

  /** One call and how far it got; `removed` counts the files a delete took away. */
  datatype Op =
    | Put(key: string, body: Bytes, metadata: Metadata, temp: string, metadataTemp: string, first: WriteFate, second: WriteFate)
    | Delete(key: string, removed: nat)

  function StepsOf(op: Op): seq<Step> {
    match op
    case Put(key, body, metadata, temp, metadataTemp, first, second) =>
      WriteSteps(ObjectPath(key), Body(body), temp, first)
      + if first == Renamed then WriteSteps(MetadataPath(key), Description(metadata), metadataTemp, second) else []
    case Delete(key, removed) =>
      if removed == 0 then []
      else if removed == 1 then [Remove(MetadataPath(key))]
      else [Remove(MetadataPath(key)), Remove(ObjectPath(key))]
  }

  predicate Finished(op: Op) {
    match op
    case Put(_, _, _, _, _, first, second) => first == Renamed && second == Renamed
    case Delete(_, removed) => removed >= 2
  }

  /** Only the body was replaced. */
  predicate BodyOnly(op: Op) {
    op.Put? && op.first == Renamed && op.second != Renamed
  }

  /** The operation got as far as changing a file that readers see. */
  predicate Effective(op: Op) {
    match op
    case Put(_, _, _, _, _, first, _) => first == Renamed
    case Delete(_, removed) => removed >= 1
  }

  /** The random names of temporary files are unused. */
  predicate Allowed(files: Files, op: Op) {
    && ValidKey(op.key)
    && (op.Put? ==>
          && op.metadata.key == op.key && op.metadata.sizeBytes == |op.body|
          && IsTemp(op.temp, ObjectPath(op.key)) && op.temp !in files
          && IsTemp(op.metadataTemp, MetadataPath(op.key)) && op.metadataTemp !in files)
  }

  function Exec(files: Files, op: Op): Files {
    Run(files, StepsOf(op))
  }

  function After(files: Files, ops: seq<Op>): Files
    decreases |ops|
  {
    if ops == [] then files else After(Exec(files, ops[0]), ops[1..])
  }

  predicate AllAllowed(files: Files, ops: seq<Op>)
    decreases |ops|
  {
    ops == [] || (Allowed(files, ops[0]) && AllAllowed(Exec(files, ops[0]), ops[1..]))
  }

  lemma {:induction false} RunAppend(files: Files, a: seq<Step>, b: seq<Step>)
    ensures Run(files, a + b) == Run(Run(files, a), b)
    decreases |a|
  {
    if a == [] {
      assert a + b == b;
    } else {
      assert (a + b)[1..] == a[1..] + b;
      RunAppend(Do(files, a[0]), a[1..], b);
    }
  }

  /** What a write leaves: the file, if it got that far, and perhaps its temporary file. */
  lemma WriteLeaves(files: Files, path: string, data: Data, temp: string, fate: WriteFate)
    requires temp !in files && temp != path
    ensures var after := Run(files, WriteSteps(path, data, temp, fate));
            && (forall p :: p != path && p != temp ==> (p in after <==> p in files) && (p in files ==> after[p] == files[p]))
            && (fate == Renamed ==> path in after && after[path] == data)
            && (fate != Renamed ==> (path in after <==> path in files) && (path in files ==> after[path] == files[path]))
  {
    var steps := WriteSteps(path, data, temp, fate);
    if |steps| > 0 {
      var next := Do(files, steps[0]);
      assert Run(files, steps) == Run(next, steps[1..]);
      if |steps| > 1 {
        assert steps[1..][1..] == [];
        assert Run(next, steps[1..]) == Do(next, steps[1]);
      }
    }
  }

  // ------------------------------------------------------------------------ reading

  function Head(files: Files, key: string): Option<Metadata> {
    if MetadataPath(key) in files && files[MetadataPath(key)].Description? then Some(files[MetadataPath(key)].metadata) else None
  }

  /** `getObject`: nothing without metadata, and nothing without a body. */
  function Get(files: Files, key: string): Option<StoredObject> {
    var metadata :- Head(files, key);
    if ObjectPath(key) in files && files[ObjectPath(key)].Body? then Some(StoredObject(metadata, files[ObjectPath(key)].bytes))
    else None
  }

  /** What was ever handed to a put. */
  datatype History = History(bodies: set<(string, Bytes)>, metadata: set<(string, Metadata)>)

  function Begun(h: History, op: Op): History {
    if op.Put? then History(h.bodies + {(op.key, op.body)}, h.metadata + {(op.key, op.metadata)}) else h
  }

  function HistoryOf(h: History, ops: seq<Op>): History
    decreases |ops|
  {
    if ops == [] then h else HistoryOf(Begun(h, ops[0]), ops[1..])
  }

  /** Visible metadata belongs to a valid key, was put for it, and has a body that was put for it. */
  ghost predicate Sound(files: Files, h: History) {
    forall key: string :: MetadataPath(key) in files ==> SoundAt(files, h, key)
  }

  ghost predicate SoundAt(files: Files, h: History, key: string)
    requires MetadataPath(key) in files
  {
    && ValidKey(key)
    && files[MetadataPath(key)].Description? && files[MetadataPath(key)].metadata.key == key
    && (key, files[MetadataPath(key)].metadata) in h.metadata
    && ObjectPath(key) in files && files[ObjectPath(key)].Body?
    && (key, files[ObjectPath(key)].bytes) in h.bodies
  }

  /** The files of `key`, when it is visible, are the same in both. */
  ghost predicate SameAt(a: Files, b: Files, key: string) {
    && (MetadataPath(key) in a <==> MetadataPath(key) in b)
    && (MetadataPath(key) in a ==> a[MetadataPath(key)] == b[MetadataPath(key)])
    && (MetadataPath(key) in a && ObjectPath(key) in a ==> ObjectPath(key) in b && a[ObjectPath(key)] == b[ObjectPath(key)])
  }

  // ------------------------------------------------------------------- one operation

  /** A put, wherever it stops: the body is replaced first, the metadata after it. */
  lemma PutLeaves(files: Files, op: Op)
    requires op.Put? && Allowed(files, op)
    ensures var after := Exec(files, op);
            && (forall p :: p != ObjectPath(op.key) && p != MetadataPath(op.key) && p != op.temp && p != op.metadataTemp ==>
                  (p in after <==> p in files) && (p in files ==> after[p] == files[p]))
            && (if op.first == Renamed then ObjectPath(op.key) in after && after[ObjectPath(op.key)] == Body(op.body)
                else (ObjectPath(op.key) in after <==> ObjectPath(op.key) in files)
                     && (ObjectPath(op.key) in files ==> after[ObjectPath(op.key)] == files[ObjectPath(op.key)]))
            && (if Finished(op) then MetadataPath(op.key) in after && after[MetadataPath(op.key)] == Description(op.metadata)
                else (MetadataPath(op.key) in after <==> MetadataPath(op.key) in files)
                     && (MetadataPath(op.key) in files ==> after[MetadataPath(op.key)] == files[MetadataPath(op.key)]))
  {
    var body, description := ObjectPath(op.key), MetadataPath(op.key);
    AreasDiffer(op.key, op.key);
    TempIsNoMetadata(op.temp, body, op.key);
    TempOfMetadata(op.metadataTemp, op.key, op.key);
    var first := WriteSteps(body, Body(op.body), op.temp, op.first);
    var middle := Run(files, first);
    WriteLeaves(files, body, Body(op.body), op.temp, op.first);
    if op.first == Renamed {
      AreTempsApart(op.temp, op.metadataTemp, op.key);
      RunAppend(files, first, WriteSteps(description, Description(op.metadata), op.metadataTemp, op.second));
      WriteLeaves(middle, description, Description(op.metadata), op.metadataTemp, op.second);
    } else {
      assert first + [] == first;
    }
  }

  lemma AreTempsApart(temp: string, metadataTemp: string, key: string)
    requires IsTemp(temp, ObjectPath(key)) && IsTemp(metadataTemp, MetadataPath(key))
    ensures temp != metadataTemp
  {
    assert temp[0] == temp[..|ObjectPath(key)|][0] == 'o';
    assert metadataTemp[0] == metadataTemp[..|MetadataPath(key)|][0] == 'm';
  }

  lemma DeleteLeaves(files: Files, op: Op)
    requires op.Delete?
    ensures var after := Exec(files, op);
            && (forall p :: p != ObjectPath(op.key) && p != MetadataPath(op.key) ==>
                  (p in after <==> p in files) && (p in files ==> after[p] == files[p]))
            && (op.removed >= 1 ==> MetadataPath(op.key) !in after)
            && (op.removed == 0 ==> after == files)
  {
    AreasDiffer(op.key, op.key);
    var steps := StepsOf(op);
    if op.removed >= 1 {
      assert Run(files, steps) == Run(Do(files, steps[0]), steps[1..]);
      if op.removed >= 2 {
        assert steps[1..] == [Remove(ObjectPath(op.key))];
        assert steps[1..][1..] == [];
      }
    }
  }

  /** Neither a put nor a delete of one key touches the files of another visible key. */
  lemma OthersUntouched(files: Files, h: History, op: Op, key: string)
    requires Allowed(files, op) && Sound(files, h) && key != op.key
    ensures SameAt(files, Exec(files, op), key)
    ensures Get(Exec(files, op), key) == Get(files, key)
  {
    var after := Exec(files, op);
    MetadataPathInjective(key, op.key);
    ObjectPathInjective(key, op.key);
    AreasDiffer(key, op.key);
    AreasDiffer(op.key, key);
    assert MetadataPath(key) in files ==> SoundAt(files, h, key);
    if op.Put? {
      PutLeaves(files, op);
      TempIsNoMetadata(op.temp, ObjectPath(op.key), key);
      TempIsNoMetadata(op.metadataTemp, MetadataPath(op.key), key);
    } else {
      DeleteLeaves(files, op);
    }
  }

  /** Wherever an operation stops, visible metadata keeps a body. */
  lemma ExecKeepsSound(files: Files, h: History, op: Op)
    requires Allowed(files, op) && Sound(files, h)
    ensures Sound(Exec(files, op), Begun(h, op))
  {
    var after := Exec(files, op);
    forall key: string | MetadataPath(key) in after
      ensures SoundAt(after, Begun(h, op), key)
    {
      if key != op.key {
        OthersUntouched(files, h, op, key);
        assert SoundAt(files, h, key);
      } else {
        assert MetadataPath(key) in files ==> SoundAt(files, h, key);
        if op.Put? {
          PutLeaves(files, op);
        } else {
          DeleteLeaves(files, op);
        }
      }
    }
  }

  // ------------------------------------------------------------------------- runs

  /**
   * After any sequence of puts and deletes, each stopped anywhere, every key with
   * visible metadata reads as an object whose metadata and whole body were put for it.
   */
  lemma {:induction false} RunsAreSound(files: Files, h: History, ops: seq<Op>)
    requires AllAllowed(files, ops) && Sound(files, h)
    ensures Sound(After(files, ops), HistoryOf(h, ops))
    decreases |ops|
  {
    if ops != [] {
      ExecKeepsSound(files, h, ops[0]);
      RunsAreSound(Exec(files, ops[0]), Begun(h, ops[0]), ops[1..]);
    }
  }

  lemma NoKeyReadsAsNull(ops: seq<Op>, key: string)
    requires AllAllowed(map[], ops) && MetadataPath(key) in After(map[], ops)
    ensures var got := Get(After(map[], ops), key);
            var h := HistoryOf(History({}, {}), ops);
            && got.Some? && got.value.metadata.key == key
            && (key, got.value.body) in h.bodies && (key, got.value.metadata) in h.metadata
  {
    RunsAreSound(map[], History({}, {}), ops);
    assert SoundAt(After(map[], ops), HistoryOf(History({}, {}), ops), key);
  }

  lemma {:induction false} AfterAppend(files: Files, a: seq<Op>, b: seq<Op>)
    ensures After(files, a + b) == After(After(files, a), b)
    decreases |a|
  {
    if a == [] {
      assert a + b == b;
    } else {
      assert (a + b)[1..] == a[1..] + b;
      AfterAppend(Exec(files, a[0]), a[1..], b);
    }
  }

  /** A finished put reads back, a finished delete reads as nothing. */
  lemma FinishedReadsBack(files: Files, op: Op)
    requires Allowed(files, op) && Finished(op)
    ensures Get(Exec(files, op), op.key) == if op.Put? then Some(StoredObject(op.metadata, op.body)) else None
  {
    if op.Put? {
      PutLeaves(files, op);
    } else {
      DeleteLeaves(files, op);
    }
  }

  // ----------------------------------------------------------- what a key denotes

  /** The object under a key after one operation on it, wherever that stopped. */
  function Next(before: Option<StoredObject>, op: Op): Option<StoredObject> {
    match op
    case Put(_, body, metadata, _, _, first, second) =>
      if first != Renamed then before
      else if second == Renamed then Some(StoredObject(metadata, body))
      else if before.None? then None
      else Some(StoredObject(before.value.metadata, body))
    case Delete(_, removed) => if removed >= 1 then None else before
  }

  function Denotes(before: Option<StoredObject>, ops: seq<Op>, key: string): Option<StoredObject>
    decreases |ops|
  {
    if ops == [] then before
    else Denotes(if ops[0].key == key then Next(before, ops[0]) else before, ops[1..], key)
  }

  lemma ReadsNext(files: Files, h: History, op: Op)
    requires Allowed(files, op) && Sound(files, h)
    ensures Get(Exec(files, op), op.key) == Next(Get(files, op.key), op)
  {
    assert MetadataPath(op.key) in files ==> SoundAt(files, h, op.key);
    if op.Put? {
      PutLeaves(files, op);
    } else {
      DeleteLeaves(files, op);
    }
  }

  /** Reading the files after any run gives what the operations on that key alone say. */
  lemma {:induction false} ReadsWhatItDenotes(files: Files, h: History, ops: seq<Op>, key: string)
    requires AllAllowed(files, ops) && Sound(files, h)
    ensures Get(After(files, ops), key) == Denotes(Get(files, key), ops, key)
    decreases |ops|
  {
    if ops != [] {
      if ops[0].key == key {
        ReadsNext(files, h, ops[0]);
      } else {
        OthersUntouched(files, h, ops[0], key);
      }
      ExecKeepsSound(files, h, ops[0]);
      ReadsWhatItDenotes(Exec(files, ops[0]), Begun(h, ops[0]), ops[1..], key);
    }
  }

  lemma {:induction false} DenotesStays(before: Option<StoredObject>, ops: seq<Op>, key: string)
    requires forall i :: 0 <= i < |ops| && ops[i].key == key ==> !Effective(ops[i])
    ensures Denotes(before, ops, key) == before
    decreases |ops|
  {
    if ops != [] {
      DenotesStays(before, ops[1..], key);
    }
  }

  /**
   * A finished put is read back byte for byte, whatever happens to other keys
   * afterwards, and while no later operation on the key gets to its first rename
   * or removal.
   */
  lemma PutIsReadBack(files: Files, h: History, op: Op, later: seq<Op>)
    requires Sound(files, h) && op.Put? && Finished(op) && AllAllowed(files, [op] + later)
    requires forall i :: 0 <= i < |later| && later[i].key == op.key ==> !Effective(later[i])
    ensures Get(After(files, [op] + later), op.key) == Some(StoredObject(op.metadata, op.body))
  {
    assert ([op] + later)[1..] == later;
    ReadsWhatItDenotes(files, h, [op] + later, op.key);
    DenotesStays(Some(StoredObject(op.metadata, op.body)), later, op.key);
  }

  // ------------------------------------------------------------------- torn updates

  /** Which operations of a run the metadata and the body under a key come from. */
  datatype Origin = Origin(metadataBy: nat, bodyBy: nat)

  /** For a run that starts with an empty store. */
  function OriginOf(ops: seq<Op>, key: string): Option<Origin> {
    if ops == [] then None
    else
      var n := |ops| - 1;
      var before, op := OriginOf(ops[..n], key), ops[n];
      if op.key != key || !Effective(op) then before
      else if op.Delete? then None
      else if op.second == Renamed then Some(Origin(n, n))
      else if before.None? then None
      else Some(Origin(before.value.metadataBy, n))
  }

  predicate PutsAt(ops: seq<Op>, key: string, i: nat) {
    i < |ops| && ops[i].Put? && ops[i].key == key
  }

  /** The object that an origin stands for. */
  function ObjectOf(ops: seq<Op>, key: string, o: Option<Origin>): Option<StoredObject>
    requires o.Some? ==> PutsAt(ops, key, o.value.metadataBy) && PutsAt(ops, key, o.value.bodyBy)
  {
    if o.None? then None else Some(StoredObject(ops[o.value.metadataBy].metadata, ops[o.value.bodyBy].body))
  }

  lemma {:induction false} DenotesAppend(before: Option<StoredObject>, ops: seq<Op>, op: Op, key: string)
    ensures Denotes(before, ops + [op], key) ==
            if op.key == key then Next(Denotes(before, ops, key), op) else Denotes(before, ops, key)
    decreases |ops|
  {
    if ops == [] {
      assert ([op] + [])[1..] == [];
      assert ops + [op] == [op];
    } else {
      assert (ops + [op])[1..] == ops[1..] + [op];
      DenotesAppend(if ops[0].key == key then Next(before, ops[0]) else before, ops[1..], op, key);
    }
  }

  lemma {:induction false} OriginDenotes(ops: seq<Op>, key: string)
    ensures var o := OriginOf(ops, key);
            && (o.Some? ==> PutsAt(ops, key, o.value.metadataBy) && PutsAt(ops, key, o.value.bodyBy))
            && Denotes(None, ops, key) == ObjectOf(ops, key, o)
  {
    if ops != [] {
      var n := |ops| - 1;
      OriginDenotes(ops[..n], key);
      DenotesAppend(None, ops[..n], ops[n], key);
      assert ops == ops[..n] + [ops[n]];
    }
  }

  /** After any run from an empty store, a key reads as the metadata and the body of its origin. */
  lemma ReadsItsOrigin(ops: seq<Op>, key: string)
    requires AllAllowed(map[], ops)
    ensures var o := OriginOf(ops, key);
            && (o.Some? ==> PutsAt(ops, key, o.value.metadataBy) && PutsAt(ops, key, o.value.bodyBy))
            && Get(After(map[], ops), key) == ObjectOf(ops, key, o)
  {
    OriginDenotes(ops, key);
    ReadsWhatItDenotes(map[], History({}, {}), ops, key);
  }

  /** No operation on the key after number `i` got anywhere. */
  predicate LastEffective(ops: seq<Op>, key: string, i: nat) {
    && i < |ops| && ops[i].key == key && Effective(ops[i])
    && forall j :: i < j < |ops| && ops[j].key == key ==> !Effective(ops[j])
  }

  /** Metadata and body of the key come from two different puts. */
  predicate Mixed(ops: seq<Op>, key: string) {
    var o := OriginOf(ops, key);
    o.Some? && o.value.metadataBy != o.value.bodyBy
  }

  /** Nothing before number `i` reaches as far as the origin of what number `i` leaves. */
  lemma {:induction false} OriginOfLast(ops: seq<Op>, key: string, i: nat)
    requires LastEffective(ops, key, i)
    ensures OriginOf(ops, key) == OriginOf(ops[..i + 1], key)
  {
    var n := |ops| - 1;
    if i < n {
      OriginOfLast(ops[..n], key, i);
      assert ops[..n][..i + 1] == ops[..i + 1];
    } else {
      assert ops[..i + 1] == ops;
    }
  }

  lemma {:induction false} NoneEffective(ops: seq<Op>, key: string)
    ensures (exists i: nat :: LastEffective(ops, key, i)) || OriginOf(ops, key).None?
  {
    if ops != [] {
      var n := |ops| - 1;
      NoneEffective(ops[..n], key);
      if ops[n].key == key && Effective(ops[n]) {
        assert LastEffective(ops, key, n);
      } else if i: nat :| LastEffective(ops[..n], key, i) {
        assert LastEffective(ops, key, i);
      }
    }
  }

  /** The operations that an origin names come before the end of the run. */
  lemma {:induction false} OriginIsEarlier(ops: seq<Op>, key: string)
    ensures OriginOf(ops, key).Some? ==> OriginOf(ops, key).value.metadataBy <= OriginOf(ops, key).value.bodyBy < |ops|
  {
    if ops != [] {
      OriginIsEarlier(ops[..|ops| - 1], key);
    }
  }

  /**
   * A key reads as the metadata of one put over the body of another if and only if
   * the last operation that took effect on it was a put that stopped between its
   * two renames, and the key was visible before that.
   */
  lemma MixedIffTorn(ops: seq<Op>, key: string)
    ensures Mixed(ops, key) <==>
            exists i: nat :: LastEffective(ops, key, i) && BodyOnly(ops[i]) && OriginOf(ops[..i], key).Some?
  {
    NoneEffective(ops, key);
    forall i: nat | LastEffective(ops, key, i)
      ensures Mixed(ops, key) <==> BodyOnly(ops[i]) && OriginOf(ops[..i], key).Some?
    {
      OriginOfLast(ops, key, i);
      OriginIsEarlier(ops[..i], key);
      assert ops[..i + 1][..i] == ops[..i];
    }
  }

  lemma {:induction false} AllowedPrefix(files: Files, ops: seq<Op>, i: nat)
    requires AllAllowed(files, ops) && i <= |ops|
    ensures AllAllowed(files, ops[..i])
    decreases |ops|
  {
    if i > 0 {
      AllowedPrefix(Exec(files, ops[0]), ops[1..], i - 1);
      assert ops[..i][1..] == ops[1..][..i - 1];
    }
  }

  /** The same, in terms of what a reader could see before that put. */
  lemma MixedIffOverwrote(ops: seq<Op>, key: string)
    requires AllAllowed(map[], ops)
    ensures Mixed(ops, key) <==>
            exists i: nat :: LastEffective(ops, key, i) && BodyOnly(ops[i]) && Get(After(map[], ops[..i]), key).Some?
  {
    MixedIffTorn(ops, key);
    forall i: nat | LastEffective(ops, key, i)
      ensures Get(After(map[], ops[..i]), key).Some? <==> OriginOf(ops[..i], key).Some?
    {
      AllowedPrefix(map[], ops, i);
      ReadsItsOrigin(ops[..i], key);
    }
  }

  /** The object of put number `i` is read back, both halves, if and only if the put finished and nothing took effect later. */
  lemma OwnPairIff(ops: seq<Op>, key: string, i: nat)
    ensures OriginOf(ops, key) == Some(Origin(i, i)) <==> LastEffective(ops, key, i) && ops[i].Put? && Finished(ops[i])
  {
    NoneEffective(ops, key);
    forall j: nat | LastEffective(ops, key, j)
      ensures OriginOf(ops, key) == Some(Origin(i, i)) <==> i == j && ops[i].Put? && Finished(ops[i])
    {
      OriginOfLast(ops, key, j);
      OriginIsEarlier(ops[..j], key);
      assert ops[..j + 1][..j] == ops[..j];
    }
  }

  /** The size in the metadata is the size of the body. */
  predicate Agrees(files: Files, key: string) {
    Get(files, key).Some? ==> Get(files, key).value.metadata.sizeBytes == |Get(files, key).value.body|
  }

  /** An overwriting put of another size that replaced the body and stopped before the metadata. */
  predicate Tears(files: Files, op: Op) {
    BodyOnly(op) && Head(files, op.key).Some? && Head(files, op.key).value.sizeBytes != |op.body|
  }

  /** Metadata and body disagree about the size exactly after such a put, until an operation takes effect again. */
  lemma AgreesUnlessTorn(files: Files, h: History, op: Op)
    requires Allowed(files, op) && Sound(files, h)
    ensures Agrees(Exec(files, op), op.key) <==> if Effective(op) then !Tears(files, op) else Agrees(files, op.key)
  {
    assert MetadataPath(op.key) in files ==> SoundAt(files, h, op.key);
    ReadsNext(files, h, op);
  }

  lemma {:induction false} AllowedSizes(files: Files, ops: seq<Op>, i: nat)
    requires AllAllowed(files, ops) && i < |ops| && ops[i].Put?
    ensures ops[i].metadata.sizeBytes == |ops[i].body|
    decreases |ops|
  {
    if i > 0 {
      AllowedSizes(Exec(files, ops[0]), ops[1..], i - 1);
    }
  }

  /** Over whole runs: the sizes disagree if and only if the key is mixed from puts of different sizes. */
  lemma AgreesIffSameSize(ops: seq<Op>, key: string)
    requires AllAllowed(map[], ops)
    ensures Agrees(After(map[], ops), key) <==>
            (Mixed(ops, key) ==>
               var o := OriginOf(ops, key).value;
               && PutsAt(ops, key, o.metadataBy) && PutsAt(ops, key, o.bodyBy)
               && |ops[o.metadataBy].body| == |ops[o.bodyBy].body|)
  {
    ReadsItsOrigin(ops, key);
    var o := OriginOf(ops, key);
    if o.Some? {
      AllowedSizes(map[], ops, o.value.metadataBy);
      AllowedSizes(map[], ops, o.value.bodyBy);
    }
  }

  /** Such a put exists: one byte was stored, two bytes replace it, and the second rename never happens. */
  lemma TornExample() returns (files: Files, op: Op)
    ensures Allowed(files, op) && Agrees(files, op.key) && !Agrees(Exec(files, op), op.key)
    ensures exists h :: Sound(files, h)
  {
    var key := "k";
    var stored := Metadata(key, 1, None, "t");
    files := map[ObjectPath(key) := Body([1])][MetadataPath(key) := Description(stored)];
    op := Put(key, [1, 2], Metadata(key, 2, None, "u"), ObjectPath(key) + TMP, MetadataPath(key) + TMP, Renamed, CrashedBeforeWrite);
    SplitNone(key, '/');
    AreasDiffer(key, key);
    var h := History({(key, [1])}, {(key, stored)});
    forall other: string | MetadataPath(other) in files
      ensures SoundAt(files, h, other)
    {
      AreasDiffer(key, other);
      MetadataPathInjective(key, other);
    }
    assert Sound(files, h);
    TempIsNoMetadata(op.temp, ObjectPath(key), key);
    TempOfMetadata(op.metadataTemp, key, key);
    AgreesUnlessTorn(files, h, op);
  }

  /**
   * A tear that no size betrays: one byte is stored, another replaces it, and the
   * second rename never happens. The old metadata stands over the new body.
   */
  lemma SameSizeTear() returns (ops: seq<Op>)
    ensures AllAllowed(map[], ops) && Mixed(ops, "k") && Agrees(After(map[], ops), "k")
    ensures Get(After(map[], ops), "k") == Some(StoredObject(Metadata("k", 1, None, "t"), [2]))
  {
    var temp, metadataTemp := ObjectPath("k") + TMP, MetadataPath("k") + TMP;
    var put := Put("k", [1], Metadata("k", 1, None, "t"), temp, metadataTemp, Renamed, Renamed);
    var torn := Put("k", [2], Metadata("k", 1, None, "u"), ObjectPath("k") + "2" + TMP, MetadataPath("k") + "2" + TMP,
                    Renamed, CrashedBeforeWrite);
    ops := [put, torn];
    SplitNone("k", '/');
    FreshTemps(put, torn);
    assert AllAllowed(Exec(map[], put), [torn]) by {
      assert [torn][1..] == [];
    }
    assert ops[1..] == [torn];
    TwoOrigins(put, torn);
    ReadsItsOrigin(ops, "k");
  }

  lemma FreshTemps(put: Op, next: Op)
    requires put.Put? && next.Put? && Allowed(map[], put) && put.key == next.key
    requires IsTemp(next.temp, ObjectPath(put.key)) && |next.temp| > |put.temp|
    requires IsTemp(next.metadataTemp, MetadataPath(put.key)) && |next.metadataTemp| > |put.metadataTemp|
    ensures next.temp !in Exec(map[], put) && next.metadataTemp !in Exec(map[], put)
  {
    PutLeaves(map[], put);
    TempIsNoMetadata(next.temp, ObjectPath(put.key), put.key);
    TempIsNoMetadata(next.metadataTemp, MetadataPath(put.key), put.key);
    TempOfMetadata(next.metadataTemp, put.key, put.key);
    AreTempsApart(next.temp, put.metadataTemp, put.key);
    AreTempsApart(put.temp, next.metadataTemp, put.key);
  }

  lemma TwoOrigins(put: Op, torn: Op)
    requires put.Put? && Finished(put) && BodyOnly(torn) && put.key == torn.key
    ensures OriginOf([put, torn], put.key) == Some(Origin(0, 1))
  {
    assert [put, torn][..1] == [put] && [put][..0] == [];
    assert OriginOf([put], put.key) == Some(Origin(0, 0));
  }

  // ------------------------------------------------------------------------ listing

  predicate StrictlySorted(keys: seq<string>) {
    forall i, j :: 0 <= i < j < |keys| ==> Less(keys[i], keys[j])
  }

  /** The visible keys with a prefix, in order, each once. */
  ghost predicate IsListing(files: Files, prefix: string, keys: seq<string>) {
    && StrictlySorted(keys)
    && forall key: string :: key in keys <==> MetadataPath(key) in files && prefix <= key
  }

  /** The key an entry of the metadata directory stands for. */
  function KeyOf(path: string): string
    requires METADATA <= path && EndsWith(path, JSON) && |path| >= |METADATA| + |JSON|
  {
    path[|METADATA|..|path| - |JSON|]
  }

  lemma PathOfKey(path: string)
    requires METADATA <= path && EndsWith(path, JSON) && |path| >= |METADATA| + |JSON|
    ensures MetadataPath(KeyOf(path)) == path
  {
    assert path == path[..|METADATA|] + path[|METADATA|..|path| - |JSON|] + path[|path| - |JSON|..];
  }

  /** `readdir`, in any order: every file below the metadata directory, once. */
  ghost predicate IsDirectory(files: Files, entries: seq<string>) {
    && (forall p :: p in entries <==> p in files && METADATA <= p)
    && (forall i, j :: 0 <= i < j < |entries| ==> entries[i] != entries[j])
  }

  predicate IsEntry(path: string, prefix: string) {
    METADATA <= path && EndsWith(path, JSON) && |path| >= |METADATA| + |JSON| && prefix <= KeyOf(path)
  }

  /** The loop over the directory: the keys of the metadata files, without duplicates. */
  method CollectKeys(entries: seq<string>, prefix: string) returns (keys: seq<string>)
    requires forall i, j :: 0 <= i < j < |entries| ==> entries[i] != entries[j]
    requires forall i :: 0 <= i < |entries| ==> METADATA <= entries[i]
    ensures forall key :: key in keys <==> MetadataPath(key) in entries && prefix <= key
    ensures forall i, j :: 0 <= i < j < |keys| ==> keys[i] != keys[j]
  {
    keys := [];
    for i := 0 to |entries|
      invariant forall key :: key in keys <==> MetadataPath(key) in entries[..i] && prefix <= key
      invariant forall a, b :: 0 <= a < b < |keys| ==> keys[a] != keys[b]
    {
      var next := ConsiderEntry(entries[i], prefix, keys);
      EntryAdded(entries, i, prefix, keys, next);
      keys := next;
    }
    assert entries[..|entries|] == entries;
  }

  method ConsiderEntry(path: string, prefix: string, keys: seq<string>) returns (next: seq<string>)
    requires METADATA <= path
    ensures next == if IsEntry(path, prefix) then keys + [KeyOf(path)] else keys
  {
    next := keys;
    if EndsWith(path, JSON) && |path| >= |METADATA| + |JSON| {
      var key := KeyOf(path);
      if prefix <= key {
        next := keys + [key];
      }
    }
  }

  lemma EntryAdded(entries: seq<string>, i: nat, prefix: string, keys: seq<string>, next: seq<string>)
    requires i < |entries| && entries[i] !in entries[..i] && METADATA <= entries[i]
    requires forall key :: key in keys <==> MetadataPath(key) in entries[..i] && prefix <= key
    requires next == if IsEntry(entries[i], prefix) then keys + [KeyOf(entries[i])] else keys
    ensures forall key :: key in next <==> MetadataPath(key) in entries[..i + 1] && prefix <= key
    ensures IsEntry(entries[i], prefix) ==> KeyOf(entries[i]) !in keys
  {
    assert entries[..i + 1] == entries[..i] + [entries[i]];
    if IsEntry(entries[i], prefix) {
      PathOfKey(entries[i]);
    }
    forall key
      ensures key in next <==> MetadataPath(key) in entries[..i + 1] && prefix <= key
    {
      KeyOfPath(key);
      if MetadataPath(key) == entries[i] {
        assert KeyOf(entries[i]) == key;
      } else if IsEntry(entries[i], prefix) {
        assert KeyOf(entries[i]) != key;
      }
    }
  }

  lemma LessIsOrder(keys: seq<string>)
    ensures Lists.IsOrderOn(Less, keys) && Lists.IsTotalOn(Less, keys)
  {
    forall a, b | a in keys && b in keys
      ensures !(Less(a, b) && Less(b, a)) && (a == b || Less(a, b) || Less(b, a))
    {
      LessTrichotomy(a, b);
    }
    forall a, b, c | a in keys && b in keys && c in keys && !Less(b, a) && !Less(c, b)
      ensures !Less(c, a)
    {
      NotAfterTransitive(a, b, c);
    }
  }

  lemma SortedKeys(keys: seq<string>)
    requires forall i, j :: 0 <= i < j < |keys| ==> keys[i] != keys[j]
    ensures StrictlySorted(Lists.Sort(Less, keys))
    ensures forall key :: key in Lists.Sort(Less, keys) <==> key in keys
  {
    var sorted := Lists.Sort(Less, keys);
    LessIsOrder(keys);
    Lists.SortSorts(Less, keys);
    Lists.SortPermutes(Less, keys);
    forall key
      ensures key in sorted <==> key in keys
    {
      Lists.SortHas(Less, keys, key);
    }
    forall i, j | 0 <= i < j < |sorted|
      ensures Less(sorted[i], sorted[j])
    {
      StillDistinct(keys, sorted, i, j);
      LessTotal(sorted[i], sorted[j]);
    }
  }

  lemma StillDistinct(keys: seq<string>, sorted: seq<string>, i: nat, j: nat)
    requires multiset(sorted) == multiset(keys) && i < j < |sorted|
    requires forall a, b :: 0 <= a < b < |keys| ==> keys[a] != keys[b]
    ensures sorted[i] != sorted[j]
  {
    Lists.DistinctOnce(keys, sorted[i]);
    Lists.DistinctPlaces(sorted, i, j);
  }

  // ---------------------------------------------------------------------- the store

  datatype StorageError = InvalidKey | Unavailable
  /** How a call ended; after a crash nobody is left to see it. */
  datatype Outcome = Completed | Failed(error: StorageError) | Crashed

  function OutcomeOf(fate: WriteFate): Outcome {
    if fate == Renamed then Completed else if IsCrash(fate) then Crashed else Failed(Unavailable)
  }

  class FilesystemStorage {
    var files: Files

    constructor ()
      ensures files == map[]
    {
      files := map[];
    }

    /** One atomic write; `fate` is what the file system and the machine do to it. */
    method AtomicWrite(path: string, data: Data, temp: string, fate: WriteFate) returns (outcome: Outcome)
      requires temp !in files && temp != path
      modifies this
      ensures files == Run(old(files), WriteSteps(path, data, temp, fate))
      ensures outcome == OutcomeOf(fate)
    {
      outcome := OutcomeOf(fate);
      if fate.CrashedBeforeWrite? || fate.MkdirFailed? {
        return;
      }
      files := files[temp := if fate.CrashedInWrite? || fate.WriteFailed? then Partial else data];
      match fate {
        case Renamed =>
          files := (files - {temp})[path := files[temp]];
        case WriteFailed(cleaned) =>
          if cleaned {
            files := files - {temp};
          }
        case RenameFailed(cleaned) =>
          if cleaned {
            files := files - {temp};
          }
        case _ =>
      }
      StepsUnfold(old(files), WriteSteps(path, data, temp, fate));
    }

    /** Body first, metadata second; a failure or a crash in the first write never reaches the second. */
    method PutObject(key: string, body: Bytes, contentType: Option<string>, now: string,
                     temp: string, metadataTemp: string, first: WriteFate, second: WriteFate) returns (outcome: Outcome)
      requires IsTemp(temp, ObjectPath(key)) && temp !in files
      requires IsTemp(metadataTemp, MetadataPath(key)) && metadataTemp !in files
      modifies this
      ensures !ValidKey(key) ==> outcome == Failed(InvalidKey) && files == old(files)
      ensures var op := Put(key, body, Metadata(key, |body|, contentType, now), temp, metadataTemp, first, second);
              ValidKey(key) ==> && Allowed(old(files), op) && files == Exec(old(files), op)
                                && (outcome == Completed <==> Finished(op))
    {
      var problems := KeyProblems(key);
      if problems != [] {
        return Failed(InvalidKey);
      }
      var metadata := Metadata(key, |body|, contentType, now);
      AreTempsApart(temp, metadataTemp, key);
      TempOfMetadata(metadataTemp, key, key);
      outcome := AtomicWrite(ObjectPath(key), Body(body), temp, first);
      if outcome == Completed {
        WriteLeaves(old(files), ObjectPath(key), Body(body), temp, first);
        RunAppend(old(files), WriteSteps(ObjectPath(key), Body(body), temp, first),
                  WriteSteps(MetadataPath(key), Description(metadata), metadataTemp, second));
        outcome := AtomicWrite(MetadataPath(key), Description(metadata), metadataTemp, second);
      } else {
        assert WriteSteps(ObjectPath(key), Body(body), temp, first) + [] == WriteSteps(ObjectPath(key), Body(body), temp, first);
      }
    }

    /** Metadata first, body second; `removed` counts the removals that happen before a failure or a crash. */
    method DeleteObject(key: string, removed: nat, crash: bool) returns (outcome: Outcome)
      modifies this
      ensures !ValidKey(key) ==> outcome == Failed(InvalidKey) && files == old(files)
      ensures ValidKey(key) ==> files == Exec(old(files), Delete(key, removed))
                                && (outcome == Completed <==> Finished(Delete(key, removed)))
    {
      var problems := KeyProblems(key);
      if problems != [] {
        return Failed(InvalidKey);
      }
      outcome := if crash then Crashed else Failed(Unavailable);
      if removed >= 1 {
        files := files - {MetadataPath(key)};
        if removed >= 2 {
          files := files - {ObjectPath(key)};
          outcome := Completed;
        }
      }
      StepsUnfold(old(files), StepsOf(Delete(key, removed)));
    }

    /** `directories` are the paths that are directories at the time; reading one fails. */
    method HeadObject(key: string, directories: set<string>) returns (r: Result<Option<Metadata>, StorageError>)
      requires forall k: string :: MetadataPath(k) in files ==> files[MetadataPath(k)].Description?
      requires directories !! files.Keys
      ensures r == if !ValidKey(key) then Err(InvalidKey)
                   else if MetadataPath(key) in directories then Err(Unavailable)
                   else if Head(files, key).Some? && Head(files, key).value.key != key then Err(Unavailable)
                   else Ok(Head(files, key))
    {
      var problems := KeyProblems(key);
      if problems != [] {
        return Err(InvalidKey);
      }
      if MetadataPath(key) in directories {
        return Err(Unavailable);
      }
      if MetadataPath(key) !in files {
        return Ok(None);
      }
      var parsed := files[MetadataPath(key)].metadata;
      if parsed.key != key {
        return Err(Unavailable);
      }
      r := Ok(Some(parsed));
    }

    /**
     * On a sound store a valid key fails to read if and only if its metadata path
     * is a directory, as it may be for a key that is not there; a visible key never fails.
     */
    method GetObject(key: string, directories: set<string>, ghost h: History) returns (r: Result<Option<StoredObject>, StorageError>)
      requires Sound(files, h) && directories !! files.Keys
      ensures r == if !ValidKey(key) then Err(InvalidKey)
                   else if MetadataPath(key) in directories then Err(Unavailable)
                   else Ok(Get(files, key))
      ensures ValidKey(key) && MetadataPath(key) in files ==> r.Ok? && r.value.Some?
    {
      assert MetadataPath(key) in files ==> SoundAt(files, h, key);
      SoundDescriptions(files, h);
      var metadata :- HeadObject(key, directories);
      if metadata.None? {
        return Ok(None);
      }
      if ObjectPath(key) !in files {
        return Ok(None);
      }
      r := Ok(Some(StoredObject(metadata.value, files[ObjectPath(key)].bytes)));
    }

    /**
     * The listing is the sorted list of the visible keys with the prefix, cut at
     * the limit, and every listed key reads as an object.
     */
    method ListObjects(prefix: string, limit: Option<int>, entries: seq<string>, directories: set<string>, ghost h: History)
      returns (r: Result<seq<Metadata>, StorageError>, ghost all: seq<string>)
      requires Sound(files, h) && IsDirectory(files, entries) && directories !! files.Keys
      ensures r.Err? <==> !ValidPrefix(prefix)
      ensures r.Ok? ==>
                && IsListing(files, prefix, all)
                && (forall i :: 0 <= i < |all| ==> Get(files, all[i]).Some?)
                && var n := if limit.None? then |all| else Min(|all|, Max(0, limit.value));
                   |r.value| == n && forall i :: 0 <= i < n ==> Head(files, all[i]) == Some(r.value[i])
    {
      all := [];
      if prefix != "" {
        var problems := KeyProblems(if prefix[|prefix| - 1] == '/' then prefix[..|prefix| - 1] else prefix);
        if problems != [] {
          return Err(InvalidKey), [];
        }
      }
      var sorted := SortedListing(prefix, entries);
      all := sorted;
      SoundDescriptions(files, h);
      ListedAreSound(files, h, sorted);
      r := ReadAll(if limit.None? then sorted else sorted[..Min(|sorted|, Max(0, limit.value))], directories);
    }

    /** The keys of the directory, sorted. */
    method SortedListing(prefix: string, entries: seq<string>) returns (sorted: seq<string>)
      requires IsDirectory(files, entries)
      ensures IsListing(files, prefix, sorted)
    {
      assert forall i :: 0 <= i < |entries| ==> entries[i] in entries;
      var keys := CollectKeys(entries, prefix);
      SortedKeys(keys);
      EntriesAreVisible(files, entries);
      sorted := Lists.Sort(Less, keys);
    }

    method ReadAll(keys: seq<string>, directories: set<string>) returns (r: Result<seq<Metadata>, StorageError>)
      requires directories !! files.Keys
      requires forall k: string :: MetadataPath(k) in files ==> files[MetadataPath(k)].Description?
      requires forall i :: 0 <= i < |keys| ==>
                 ValidKey(keys[i]) && Head(files, keys[i]).Some? && Head(files, keys[i]).value.key == keys[i]
      ensures r.Ok? && |r.value| == |keys| && forall i :: 0 <= i < |keys| ==> Head(files, keys[i]) == Some(r.value[i])
    {
      var out: seq<Metadata> := [];
      for i := 0 to |keys|
        invariant |out| == i && forall j :: 0 <= j < i ==> Head(files, keys[j]) == Some(out[j])
      {
        var metadata := HeadObject(keys[i], directories);
        out := out + [metadata.value.value];
      }
      r := Ok(out);
    }
  }

  /** Up to three steps, one after the other. */
  lemma StepsUnfold(files: Files, steps: seq<Step>)
    ensures steps == [] ==> Run(files, steps) == files
    ensures |steps| == 1 ==> Run(files, steps) == Do(files, steps[0])
    ensures |steps| == 2 ==> Run(files, steps) == Do(Do(files, steps[0]), steps[1])
  {
    if |steps| == 2 {
      assert Run(files, steps) == Run(Do(files, steps[0]), steps[1..]);
      assert steps[1..][1..] == [];
    }
  }

  lemma SoundDescriptions(files: Files, h: History)
    requires Sound(files, h)
    ensures forall key: string :: MetadataPath(key) in files ==> files[MetadataPath(key)].Description?
  {
    forall key: string | MetadataPath(key) in files
      ensures files[MetadataPath(key)].Description?
    {
      assert SoundAt(files, h, key);
    }
  }

  lemma EntriesAreVisible(files: Files, entries: seq<string>)
    requires IsDirectory(files, entries)
    ensures forall key: string :: MetadataPath(key) in entries <==> MetadataPath(key) in files
  {
    forall key: string
      ensures METADATA <= MetadataPath(key)
    {
    }
  }

  lemma ListedAreSound(files: Files, h: History, keys: seq<string>)
    requires Sound(files, h) && forall key :: key in keys ==> MetadataPath(key) in files
    ensures forall i :: 0 <= i < |keys| ==>
              ValidKey(keys[i]) && Get(files, keys[i]).Some? && Head(files, keys[i]).value.key == keys[i]
  {
    forall i | 0 <= i < |keys|
      ensures ValidKey(keys[i]) && Get(files, keys[i]).Some? && Head(files, keys[i]).value.key == keys[i]
    {
      assert keys[i] in keys;
      assert SoundAt(files, h, keys[i]);
    }
  }
}
