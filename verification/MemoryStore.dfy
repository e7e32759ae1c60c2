// src/memory/sqlite/sqlite-memory-store.ts against the contract of
// src/memory/store.ts: two tables that behave like one list of records.

module MemoryStore {
  import opened Support
  import opened Text
  import opened Records
  import Lists

  datatype Query = Query(kinds: Option<seq<Kind>>, runId: Option<string>, goalId: Option<string>,
                         tags: Option<seq<string>>, createdAfter: Option<string>, limit: Option<int>)
  /** The store's own errors, and one of the driver that is passed on as it is. */
  datatype StoreError = Unavailable | InvalidRecord | Conflict | DriverFailed

  // ---------------------------------------------------- the contract: a plain list

  /** One entry per id, by the time of its first put. */
  type Log = seq<Record>

  predicate Storable(record: Record, isTimestamp: string -> bool) {
    && record.recordId != "" && record.runId != "" && record.goalId != Some("") && record.taskId != Some("")
    && record.createdAt != "" && isTimestamp(record.createdAt)
  }

  datatype RecordProblem = NoRecordId | NoRunId | EmptyGoalId | EmptyTaskId | NoTimestamp

  /** Every field at fault is reported, and no other. */
  method RecordProblems(record: Record, isTimestamp: string -> bool) returns (problems: seq<RecordProblem>)
    ensures problems == [] <==> Storable(record, isTimestamp)
    ensures NoRecordId in problems <==> record.recordId == ""
    ensures NoRunId in problems <==> record.runId == ""
    ensures EmptyGoalId in problems <==> record.goalId == Some("")
    ensures EmptyTaskId in problems <==> record.taskId == Some("")
    ensures NoTimestamp in problems <==> record.createdAt == "" || !isTimestamp(record.createdAt)
  {
    problems := [];
    if |record.recordId| == 0 {
      problems := problems + [NoRecordId];
    }
    if |record.runId| == 0 {
      problems := problems + [NoRunId];
    }
    if record.goalId.Some? && |record.goalId.value| == 0 {
      problems := problems + [EmptyGoalId];
    }
    if record.taskId.Some? && |record.taskId.value| == 0 {
      problems := problems + [EmptyTaskId];
    }
    if |record.createdAt| == 0 || !isTimestamp(record.createdAt) {
      problems := problems + [NoTimestamp];
    }
  }

  function PositionOf(log: Log, recordId: string): (r: Option<nat>)
    ensures r.Some? ==> r.value < |log| && log[r.value].recordId == recordId
    ensures r.None? ==> forall i :: 0 <= i < |log| ==> log[i].recordId != recordId
  {
    if log == [] then None
    else if log[|log| - 1].recordId == recordId then Some(|log| - 1)
    else PositionOf(log[..|log| - 1], recordId)
  }

  function Lookup(log: Log, recordId: string): Option<Record> {
    var i :- PositionOf(log, recordId);
    Some(log[i])
  }

  /** An upsert that keeps the position, refused when the record belongs to another run. */
  function PutList(log: Log, record: Record): Result<Log, StoreError> {
    match PositionOf(log, record.recordId)
    case None => Ok(log + [record])
    case Some(i) => if log[i].runId != record.runId then Err(Conflict) else Ok(log[i := record])
  }

  predicate Meets(query: Query, record: Record) {
    && (query.kinds.Some? ==> record.kind in query.kinds.value)
    && (query.runId.Some? ==> record.runId == query.runId.value)
    && (query.goalId.Some? ==> record.goalId == query.goalId)
    && (query.tags.Some? ==> forall t :: t in query.tags.value ==> t in record.tags)
    && (query.createdAfter.Some? ==> Less(query.createdAfter.value, record.createdAt))
  }

  predicate Earlier(a: Record, b: Record) {
    Less(a.createdAt, b.createdAt)
  }

  function Meeting(query: Query): Record -> bool {
    record => Meets(query, record)
  }

  function Cut<T>(s: seq<T>, limit: Option<int>): seq<T> {
    if limit.None? then s else s[..Min(|s|, Max(0, limit.value))]
  }

  /** Oldest first, records of one time in the order they were first stored, the earliest N of them. */
  function Answer(log: Log, query: Query): seq<Record> {
    Cut(Lists.Sort(Earlier, Lists.Filter(Meeting(query), log)), query.limit)
  }

  function CountOf(log: Log, query: Query): nat {
    |Lists.Filter(Meeting(query), log)|
  }

  // ------------------------------------------------------------------- the tables

  /** One row: the indexed columns and the whole record as the body. */
  datatype Row = Row(recordId: string, kind: Kind, runId: string, goalId: Option<string>, createdAt: string,
                     body: Record, position: nat)

  type Rows = map<string, Row>
  type Tags = set<(string, string)>

  function RowOf(record: Record, position: nat): Row {
    Row(record.recordId, record.kind, record.runId, record.goalId, record.createdAt, record, position)
  }

  /** The rows are the records of the list, numbered from 1 in the order of the list. */
  ghost predicate RowsShow(rows: Rows, log: Log) {
    && (forall i :: 0 <= i < |log| ==> log[i].recordId in rows && rows[log[i].recordId] == RowOf(log[i], i + 1))
    && (forall id :: id in rows ==> PositionOf(log, id).Some?)
  }

  /** The tag table holds the tags of every record, and no others. */
  ghost predicate TagsShow(tags: Tags, log: Log) {
    forall id, t :: (id, t) in tags <==> Lookup(log, id).Some? && t in Lookup(log, id).value.tags
  }

  ghost predicate Shows(rows: Rows, tags: Tags, log: Log) {
    DistinctIds(log) && RowsShow(rows, log) && TagsShow(tags, log)
  }

  lemma LookupIs(log: Log, i: nat)
    requires DistinctIds(log) && i < |log|
    ensures PositionOf(log, log[i].recordId) == Some(i) && Lookup(log, log[i].recordId) == Some(log[i])
  {
  }

  // --------------------------------------------------------------------- the clauses

  datatype Clause =
    | Never
    | KindIn(kinds: seq<Kind>)
    | RunIs(runId: string)
    | GoalIs(goalId: string)
    | HasTags(tags: set<string>)
    | CreatedAfter(time: string)

  /** How many of the tags the tag table has for the record: `COUNT(DISTINCT tag)`. */
  function TagCount(table: Tags, recordId: string, tags: set<string>): nat {
    |set t | t in tags && (recordId, t) in table|
  }

  predicate Satisfies(row: Row, table: Tags, clause: Clause) {
    match clause
    case Never => false
    case KindIn(kinds) => row.kind in kinds
    case RunIs(runId) => row.runId == runId
    case GoalIs(goalId) => row.goalId == Some(goalId)
    case HasTags(tags) => TagCount(table, row.recordId, tags) == |tags|
    case CreatedAfter(time) => Less(time, row.createdAt)
  }

  predicate SatisfiesAll(row: Row, table: Tags, clauses: seq<Clause>) {
    forall i :: 0 <= i < |clauses| ==> Satisfies(row, table, clauses[i])
  }

  function ToSet(tags: seq<string>): (s: set<string>)
    ensures forall t :: t in s <==> t in tags
  {
    set t | t in tags
  }

  /** As many of the tags as there are means all of them. */
  lemma AllTagsCounted(table: Tags, recordId: string, tags: set<string>)
    ensures TagCount(table, recordId, tags) == |tags| <==> forall t :: t in tags ==> (recordId, t) in table
  {
    var held := set t | t in tags && (recordId, t) in table;
    assert held <= tags;
    assert tags == held + (tags - held);
    assert |tags| == |held| + |tags - held|;
    if |held| == |tags| {
      assert tags - held == {};
      forall t | t in tags
        ensures (recordId, t) in table
      {
        assert t in held;
      }
    } else {
      assert held != tags;
    }
  }

  function KindPart(query: Query): seq<Clause> {
    if query.kinds.None? then [] else if query.kinds.value == [] then [Never] else [KindIn(query.kinds.value)]
  }

  function RunPart(query: Query): seq<Clause> {
    if query.runId.None? then [] else [RunIs(query.runId.value)]
  }

  function GoalPart(query: Query): seq<Clause> {
    if query.goalId.None? then [] else [GoalIs(query.goalId.value)]
  }

  function TagPart(query: Query): seq<Clause> {
    if query.tags.None? || query.tags.value == [] then [] else [HasTags(ToSet(query.tags.value))]
  }

  function TimePart(query: Query): seq<Clause> {
    if query.createdAfter.None? then [] else [CreatedAfter(query.createdAfter.value)]
  }

  function ClausesOf(query: Query): seq<Clause> {
    KindPart(query) + RunPart(query) + GoalPart(query) + TagPart(query) + TimePart(query)
  }

  method WhereClause(query: Query) returns (clauses: seq<Clause>)
    ensures clauses == ClausesOf(query)
  {
    clauses := [];
    if query.kinds.Some? {
      if |query.kinds.value| == 0 {
        clauses := clauses + [Never];
      } else {
        clauses := clauses + [KindIn(query.kinds.value)];
      }
    }
    assert clauses == KindPart(query);
    if query.runId.Some? {
      clauses := clauses + [RunIs(query.runId.value)];
    }
    assert clauses == KindPart(query) + RunPart(query);
    if query.goalId.Some? {
      clauses := clauses + [GoalIs(query.goalId.value)];
    }
    assert clauses == KindPart(query) + RunPart(query) + GoalPart(query);
    if query.tags.Some? && |query.tags.value| > 0 {
      clauses := clauses + [HasTags(ToSet(query.tags.value))];
    }
    assert clauses == KindPart(query) + RunPart(query) + GoalPart(query) + TagPart(query);
    if query.createdAfter.Some? {
      clauses := clauses + [CreatedAfter(query.createdAfter.value)];
    }
  }

  lemma ClausesAppend(row: Row, table: Tags, a: seq<Clause>, b: seq<Clause>)
    ensures SatisfiesAll(row, table, a + b) <==> SatisfiesAll(row, table, a) && SatisfiesAll(row, table, b)
  {
    if SatisfiesAll(row, table, a + b) {
      forall i | 0 <= i < |a|
        ensures Satisfies(row, table, a[i])
      {
        assert (a + b)[i] == a[i];
      }
      forall i | 0 <= i < |b|
        ensures Satisfies(row, table, b[i])
      {
        assert (a + b)[|a| + i] == b[i];
      }
    }
  }

  lemma OneClause(row: Row, table: Tags, clause: Clause)
    ensures SatisfiesAll(row, table, [clause]) <==> Satisfies(row, table, clause)
    ensures SatisfiesAll(row, table, [])
  {
    assert [clause][0] == clause;
  }

  lemma ColumnsMeanQuery(row: Row, table: Tags, query: Query)
    requires row == RowOf(row.body, row.position)
    ensures SatisfiesAll(row, table, KindPart(query)) <==> (query.kinds.Some? ==> row.body.kind in query.kinds.value)
    ensures SatisfiesAll(row, table, RunPart(query)) <==> (query.runId.Some? ==> row.body.runId == query.runId.value)
    ensures SatisfiesAll(row, table, GoalPart(query)) <==> (query.goalId.Some? ==> row.body.goalId == query.goalId)
    ensures SatisfiesAll(row, table, TimePart(query)) <==>
            (query.createdAfter.Some? ==> Less(query.createdAfter.value, row.body.createdAt))
  {
    OneClause(row, table, Never);
    if query.kinds.Some? {
      OneClause(row, table, KindIn(query.kinds.value));
    }
    if query.runId.Some? {
      OneClause(row, table, RunIs(query.runId.value));
    }
    if query.goalId.Some? {
      OneClause(row, table, GoalIs(query.goalId.value));
    }
    if query.createdAfter.Some? {
      OneClause(row, table, CreatedAfter(query.createdAfter.value));
    }
  }

  lemma TagsMeanQuery(row: Row, table: Tags, query: Query, held: seq<string>)
    requires forall t :: (row.recordId, t) in table <==> t in held
    ensures SatisfiesAll(row, table, TagPart(query)) <==>
            (query.tags.Some? ==> forall t :: t in query.tags.value ==> t in held)
  {
    if query.tags.Some? {
      var wanted := ToSet(query.tags.value);
      AllTagsCounted(table, row.recordId, wanted);
      OneClause(row, table, HasTags(wanted));
      if Satisfies(row, table, HasTags(wanted)) {
        forall t | t in query.tags.value
          ensures t in held
        {
          assert t in wanted && (row.recordId, t) in table;
        }
      }
    }
  }

  /** The clauses say about a row what the query says about its record. */
  lemma ClausesMeanQuery(row: Row, table: Tags, query: Query)
    requires row == RowOf(row.body, row.position)
    requires forall t :: (row.recordId, t) in table <==> t in row.body.tags
    ensures SatisfiesAll(row, table, ClausesOf(query)) <==> Meets(query, row.body)
  {
    var k, r, g, t := KindPart(query), RunPart(query), GoalPart(query), TagPart(query);
    ClausesAppend(row, table, k + r + g + t, TimePart(query));
    ClausesAppend(row, table, k + r + g, t);
    ClausesAppend(row, table, k + r, g);
    ClausesAppend(row, table, k, r);
    ColumnsMeanQuery(row, table, query);
    TagsMeanQuery(row, table, query, row.body.tags);
  }

  // ---------------------------------------------------------- SELECT ... ORDER BY

  predicate RowBefore(a: Row, b: Row) {
    Less(a.createdAt, b.createdAt) || (a.createdAt == b.createdAt && a.position < b.position)
  }

  predicate RowEarlier(a: Row, b: Row) {
    Less(a.createdAt, b.createdAt)
  }

  function Selecting(table: Tags, clauses: seq<Clause>): Row -> bool {
    row => SatisfiesAll(row, table, clauses)
  }

  function AllRows(log: Log): (r: seq<Row>)
    ensures |r| == |log| && forall i :: 0 <= i < |log| ==> r[i] == RowOf(log[i], i + 1)
  {
    seq(|log|, i requires 0 <= i < |log| => RowOf(log[i], i + 1))
  }

  /** The database visits every row once, in any order. */
  ghost predicate IsScan(rows: Rows, scan: seq<string>) {
    && (forall id :: id in scan <==> id in rows)
    && (forall i, j :: 0 <= i < j < |scan| ==> scan[i] != scan[j])
  }

  function Scanned(rows: Rows, scan: seq<string>): (r: seq<Row>)
    requires forall i :: 0 <= i < |scan| ==> scan[i] in rows
    ensures |r| == |scan| && forall i :: 0 <= i < |scan| ==> r[i] == rows[scan[i]]
  {
    seq(|scan|, i requires 0 <= i < |scan| && scan[i] in rows => rows[scan[i]])
  }

  function Bodies(rows: seq<Row>): (r: seq<Record>)
    ensures |r| == |rows| && forall i :: 0 <= i < |rows| ==> r[i] == rows[i].body
  {
    seq(|rows|, i requires 0 <= i < |rows| => rows[i].body)
  }

  /** The rows visited are the rows of the list, each once. */
  lemma ScanIsAllRows(rows: Rows, log: Log, scan: seq<string>)
    requires DistinctIds(log) && RowsShow(rows, log) && IsScan(rows, scan)
    ensures forall i :: 0 <= i < |scan| ==> scan[i] in rows
    ensures forall x :: x in Scanned(rows, scan) <==> x in AllRows(log)
    ensures forall i, j :: 0 <= i < j < |scan| ==> Scanned(rows, scan)[i] != Scanned(rows, scan)[j]
    ensures forall i, j :: 0 <= i < j < |log| ==> AllRows(log)[i] != AllRows(log)[j]
  {
    assert forall i :: 0 <= i < |scan| ==> scan[i] in scan;
    var scanned, all := Scanned(rows, scan), AllRows(log);
    forall i | 0 <= i < |scan|
      ensures scanned[i].recordId == scan[i] && scanned[i] in all
    {
      var p := PositionOf(log, scan[i]).value;
      assert scanned[i] == all[p];
    }
    forall x | x in all
      ensures x in scanned
    {
      var i :| 0 <= i < |log| && all[i] == x;
      assert log[i].recordId in scan;
      var k :| 0 <= k < |scan| && scan[k] == log[i].recordId;
      assert scanned[k] == x;
    }
  }

  lemma RowsAreOrdered(log: Log, s: seq<Row>)
    requires forall x :: x in s ==> x in AllRows(log)
    ensures Lists.IsOrderOn(RowBefore, s) && Lists.IsTotalOn(RowBefore, s)
  {
    forall a, b | a in s && b in s
      ensures !(RowBefore(a, b) && RowBefore(b, a)) && (a == b || RowBefore(a, b) || RowBefore(b, a))
    {
      LessTrichotomy(a.createdAt, b.createdAt);
      SamePosition(log, a, b);
    }
    forall a, b, c | a in s && b in s && c in s && !RowBefore(b, a) && !RowBefore(c, b)
      ensures !RowBefore(c, a)
    {
      NotAfterTransitive(a.createdAt, b.createdAt, c.createdAt);
    }
  }

  lemma SamePosition(log: Log, a: Row, b: Row)
    requires a in AllRows(log) && b in AllRows(log)
    ensures a.position == b.position ==> a == b
  {
    var i :| 0 <= i < |log| && AllRows(log)[i] == a;
    var j :| 0 <= j < |log| && AllRows(log)[j] == b;
  }

  /** Whatever the order of the scan, ORDER BY leaves one result. */
  lemma ScanOrderIsForgotten(log: Log, a: seq<Row>, b: seq<Row>)
    requires multiset(a) == multiset(b) && forall x :: x in b ==> x in AllRows(log)
    ensures Lists.Sort(RowBefore, a) == Lists.Sort(RowBefore, b)
  {
    var sa, sb := Lists.Sort(RowBefore, a), Lists.Sort(RowBefore, b);
    Lists.SortPermutes(RowBefore, a);
    Lists.SortPermutes(RowBefore, b);
    forall x | x in a
      ensures x in AllRows(log)
    {
      assert x in multiset(a) && x in b;
    }
    forall x | x in sa
      ensures x in AllRows(log)
    {
      Lists.SortHas(RowBefore, a, x);
    }
    RowsAreOrdered(log, a);
    RowsAreOrdered(log, b);
    RowsAreOrdered(log, sa);
    Lists.SortSorts(RowBefore, a);
    Lists.SortSorts(RowBefore, b);
    Lists.OrderedIsUnique(RowBefore, sa, sb);
  }

  predicate Ascending(s: seq<Row>) {
    forall i, j :: 0 <= i < j < |s| ==> s[i].position < s[j].position
  }

  /** In front of later positions, the position decides nothing. */
  lemma {:induction false} InsertIgnoresPosition(x: Row, s: seq<Row>)
    requires forall i :: 0 <= i < |s| ==> x.position < s[i].position
    ensures Lists.Insert(RowBefore, x, s) == Lists.Insert(RowEarlier, x, s)
  {
    if s != [] {
      InsertIgnoresPosition(x, s[1..]);
    }
  }

  /** On rows in ascending position, sorting by time and position is the stable sort by time. */
  lemma {:induction false} PositionIsStability(s: seq<Row>)
    requires Ascending(s)
    ensures Lists.Sort(RowBefore, s) == Lists.Sort(RowEarlier, s)
  {
    if s != [] {
      PositionIsStability(s[1..]);
      var rest := Lists.Sort(RowEarlier, s[1..]);
      forall i | 0 <= i < |rest|
        ensures s[0].position < rest[i].position
      {
        Lists.SortHas(RowEarlier, s[1..], rest[i]);
        var j :| 0 <= j < |s[1..]| && s[1..][j] == rest[i];
      }
      InsertIgnoresPosition(s[0], rest);
    }
  }

  lemma {:induction false} InsertBodies(x: Row, s: seq<Row>)
    requires x.createdAt == x.body.createdAt && forall i :: 0 <= i < |s| ==> s[i].createdAt == s[i].body.createdAt
    ensures Bodies(Lists.Insert(RowEarlier, x, s)) == Lists.Insert(Earlier, x.body, Bodies(s))
  {
    if s == [] {
    } else if RowEarlier(s[0], x) {
      InsertBodies(x, s[1..]);
      assert Bodies(s)[1..] == Bodies(s[1..]);
    } else {
      assert Bodies([x] + s) == [x.body] + Bodies(s);
    }
  }

  lemma {:induction false} SortBodies(s: seq<Row>)
    requires forall i :: 0 <= i < |s| ==> s[i].createdAt == s[i].body.createdAt
    ensures Bodies(Lists.Sort(RowEarlier, s)) == Lists.Sort(Earlier, Bodies(s))
  {
    if s != [] {
      SortBodies(s[1..]);
      assert Bodies(s)[1..] == Bodies(s[1..]);
      var rest := Lists.Sort(RowEarlier, s[1..]);
      forall i | 0 <= i < |rest|
        ensures rest[i].createdAt == rest[i].body.createdAt
      {
        Lists.SortHas(RowEarlier, s[1..], rest[i]);
      }
      InsertBodies(s[0], rest);
    }
  }

  lemma {:induction false} FilterBodies(keep: Row -> bool, meets: Record -> bool, s: seq<Row>)
    requires forall x :: x in s ==> keep(x) == meets(x.body)
    ensures Bodies(Lists.Filter(keep, s)) == Lists.Filter(meets, Bodies(s))
  {
    if s != [] {
      FilterBodies(keep, meets, s[1..]);
      assert Bodies(s)[1..] == Bodies(s[1..]);
      assert keep(s[0]) == meets(s[0].body);
    }
  }

  lemma {:induction false} FilterAscends(keep: Row -> bool, s: seq<Row>)
    requires Ascending(s)
    ensures Ascending(Lists.Filter(keep, s))
  {
    if s != [] {
      FilterAscends(keep, s[1..]);
      var rest := Lists.Filter(keep, s[1..]);
      forall i | 0 <= i < |rest|
        ensures s[0].position < rest[i].position
      {
        Lists.FilterHas(keep, s[1..], rest[i]);
      }
    }
  }

  /** What the SELECT finds, in any scan order, is what the list contract asks for. */
  lemma SelectIsAnswer(rows: Rows, table: Tags, log: Log, query: Query, scan: seq<string>)
    requires Shows(rows, table, log) && IsScan(rows, scan)
    ensures forall i :: 0 <= i < |scan| ==> scan[i] in rows
    ensures var found := Lists.Filter(Selecting(table, ClausesOf(query)), Scanned(rows, scan));
            && Bodies(Lists.Sort(RowBefore, found)) == Lists.Sort(Earlier, Lists.Filter(Meeting(query), log))
            && |found| == CountOf(log, query)
  {
    var keep := Selecting(table, ClausesOf(query));
    ScanIsAllRows(rows, log, scan);
    Lists.FilterSame(keep, Scanned(rows, scan), AllRows(log));
    KeptInLog(keep, log);
    ScanOrderIsForgotten(log, Lists.Filter(keep, Scanned(rows, scan)), Lists.Filter(keep, AllRows(log)));
    KeptIsAnswer(rows, table, log, query);
  }

  lemma KeptInLog(keep: Row -> bool, log: Log)
    ensures forall x :: x in Lists.Filter(keep, AllRows(log)) ==> x in AllRows(log)
  {
    forall x | x in Lists.Filter(keep, AllRows(log))
      ensures x in AllRows(log)
    {
      Lists.FilterHas(keep, AllRows(log), x);
    }
  }

  /** The same for the rows in the order of the list. */
  lemma KeptIsAnswer(rows: Rows, table: Tags, log: Log, query: Query)
    requires Shows(rows, table, log)
    ensures var kept := Lists.Filter(Selecting(table, ClausesOf(query)), AllRows(log));
            && Bodies(Lists.Sort(RowBefore, kept)) == Lists.Sort(Earlier, Lists.Filter(Meeting(query), log))
            && |kept| == CountOf(log, query)
  {
    SortedByTime(Selecting(table, ClausesOf(query)), log);
    KeptBodies(rows, table, log, query);
  }

  lemma SortedByTime(keep: Row -> bool, log: Log)
    ensures var kept := Lists.Filter(keep, AllRows(log));
            Bodies(Lists.Sort(RowBefore, kept)) == Lists.Sort(Earlier, Bodies(kept))
  {
    var kept := Lists.Filter(keep, AllRows(log));
    FilterAscends(keep, AllRows(log));
    PositionIsStability(kept);
    KeptInLog(keep, log);
    RowsHaveTime(log, kept);
    SortBodies(kept);
  }

  lemma KeptBodies(rows: Rows, table: Tags, log: Log, query: Query)
    requires Shows(rows, table, log)
    ensures Bodies(Lists.Filter(Selecting(table, ClausesOf(query)), AllRows(log))) == Lists.Filter(Meeting(query), log)
  {
    KeptAreMet(rows, table, log, query);
    FilterBodies(Selecting(table, ClausesOf(query)), Meeting(query), AllRows(log));
    assert Bodies(AllRows(log)) == log;
  }

  lemma RowsHaveTime(log: Log, s: seq<Row>)
    requires forall x :: x in s ==> x in AllRows(log)
    ensures forall i :: 0 <= i < |s| ==> s[i].createdAt == s[i].body.createdAt
  {
    forall i | 0 <= i < |s|
      ensures s[i].createdAt == s[i].body.createdAt
    {
      assert s[i] in s;
    }
  }

  lemma KeptAreMet(rows: Rows, table: Tags, log: Log, query: Query)
    requires Shows(rows, table, log)
    ensures forall x :: x in AllRows(log) ==> Selecting(table, ClausesOf(query))(x) == Meeting(query)(x.body)
  {
    forall x | x in AllRows(log)
      ensures Selecting(table, ClausesOf(query))(x) == Meeting(query)(x.body)
    {
      var i :| 0 <= i < |log| && AllRows(log)[i] == x;
      LookupIs(log, i);
      ClausesMeanQuery(x, table, query);
    }
  }

  // --------------------------------------------------------------------------- put

  /** The number of the COMMIT, counting BEGIN as 0, the two reads and writes of the row, and one INSERT per tag. */
  function LastStatement(record: Record): nat {
    4 + |record.tags|
  }

  /**
   * How a put ends, on an open store whose statement number `fault` fails. BEGIN
   * comes before the `try`, so its failure is not turned into `unavailable`.
   */
  function PutOutcome(log: Log, record: Record, isTimestamp: string -> bool, fault: nat): Result<Log, StoreError> {
    if !Storable(record, isTimestamp) then Err(InvalidRecord)
    else if fault == 0 then Err(DriverFailed)
    else if fault == 1 then Err(Unavailable)
    else if PutList(log, record).Err? then PutList(log, record)
    else if fault <= LastStatement(record) then Err(Unavailable)
    else PutList(log, record)
  }

  function Untagged(table: Tags, recordId: string): (r: Tags)
    ensures forall p :: p in r <==> p in table && p.0 != recordId
  {
    set p | p in table && p.0 != recordId
  }

  /** The rows and the tags after the upsert show the list after the put. */
  lemma PutShows(rows: Rows, table: Tags, log: Log, record: Record, position: nat, tags: Tags)
    requires Shows(rows, table, log) && PutList(log, record).Ok?
    requires position == if record.recordId in rows then rows[record.recordId].position else |log| + 1
    requires forall id, t :: (id, t) in tags <==> if id == record.recordId then t in record.tags else (id, t) in table
    ensures Shows(rows[record.recordId := RowOf(record, position)], tags, PutList(log, record).value)
  {
    PutKeepsIds(log, record);
    PutShowsRows(rows, log, record, position);
    forall id, t
      ensures (id, t) in tags <==> Lookup(PutList(log, record).value, id).Some? && t in Lookup(PutList(log, record).value, id).value.tags
    {
      LookupAfterPut(log, record, id);
    }
  }

  lemma PutShowsRows(rows: Rows, log: Log, record: Record, position: nat)
    requires DistinctIds(log) && RowsShow(rows, log) && PutList(log, record).Ok?
    requires position == if record.recordId in rows then rows[record.recordId].position else |log| + 1
    ensures RowsShow(rows[record.recordId := RowOf(record, position)], PutList(log, record).value)
  {
    var next := PutList(log, record).value;
    var after := rows[record.recordId := RowOf(record, position)];
    PutKeepsIds(log, record);
    forall i | 0 <= i < |next|
      ensures next[i].recordId in after && after[next[i].recordId] == RowOf(next[i], i + 1)
    {
      RowAfterPut(rows, log, record, position, i);
    }
    forall id | id in after
      ensures PositionOf(next, id).Some?
    {
      LookupAfterPut(log, record, id);
    }
  }

  lemma RowAfterPut(rows: Rows, log: Log, record: Record, position: nat, i: nat)
    requires DistinctIds(log) && RowsShow(rows, log) && PutList(log, record).Ok? && i < |PutList(log, record).value|
    requires position == if record.recordId in rows then rows[record.recordId].position else |log| + 1
    ensures var x := PutList(log, record).value[i];
            if x.recordId == record.recordId then RowOf(x, i + 1) == RowOf(record, position)
            else x.recordId in rows && rows[x.recordId] == RowOf(x, i + 1)
  {
    if i < |log| {
      LookupIs(log, i);
    }
  }

  lemma PutKeepsIds(log: Log, record: Record)
    requires DistinctIds(log) && PutList(log, record).Ok?
    ensures DistinctIds(PutList(log, record).value)
    ensures |log| <= |PutList(log, record).value|
    ensures forall i :: 0 <= i < |log| ==>
              PutList(log, record).value[i].recordId == log[i].recordId && PutList(log, record).value[i].runId == log[i].runId
  {
  }

  lemma LookupAfterPut(log: Log, record: Record, id: string)
    requires DistinctIds(log) && PutList(log, record).Ok?
    ensures Lookup(PutList(log, record).value, id) == if id == record.recordId then Some(record) else Lookup(log, id)
  {
    var next := PutList(log, record).value;
    PutKeepsIds(log, record);
    var p := PositionOf(next, id);
    if p.Some? {
      LookupIs(next, p.value);
      if p.value < |log| {
        LookupIs(log, p.value);
      }
    }
    if q :| 0 <= q < |log| && log[q].recordId == id {
      LookupIs(log, q);
      LookupIs(next, q);
    }
  }

  /** The positions run from 1 to the length of the list. */
  lemma PositionsAre(rows: Rows, log: Log)
    requires DistinctIds(log) && RowsShow(rows, log)
    ensures forall id :: id in rows ==> 1 <= rows[id].position <= |log|
    ensures log != [] ==> log[|log| - 1].recordId in rows && rows[log[|log| - 1].recordId].position == |log|
  {
    forall id | id in rows
      ensures 1 <= rows[id].position <= |log|
    {
      var i := PositionOf(log, id).value;
      assert log[i].recordId == id;
    }
  }

  lemma BodiesCut(rows: seq<Row>, limit: Option<int>)
    ensures Bodies(Cut(rows, limit)) == Cut(Bodies(rows), limit)
  {
  }

  class SqliteMemoryStore {
    const isTimestamp: string -> bool
    var rows: Rows
    var table: Tags
    var open: bool
    /** The list the tables stand for. */
    ghost var log: Log

    ghost predicate Valid()
      reads this
    {
      Shows(rows, table, log)
    }

    /** Opens a file whose tables stand for some list, the empty one when it is new. */
    constructor (isTimestamp: string -> bool, rows: Rows, table: Tags, ghost log: Log)
      requires Shows(rows, table, log)
      ensures Valid() && open && this.isTimestamp == isTimestamp
      ensures this.rows == rows && this.table == table && this.log == log
    {
      this.isTimestamp := isTimestamp;
      this.rows, this.table, this.open, this.log := rows, table, true, log;
    }

    method Close()
      requires Valid()
      modifies this
      ensures Valid() && !open && log == old(log)
    {
      if open {
        open := false;
      }
    }

    /** `COALESCE((SELECT MAX(seq) ...), 0) + 1` */
    method NextPosition() returns (n: nat)
      requires Valid()
      ensures n == |log| + 1
    {
      PositionsAre(rows, log);
      var left := rows.Keys;
      var highest: nat := 0;
      while left != {}
        invariant left <= rows.Keys && highest <= |log|
        invariant forall id :: id in rows && id !in left ==> rows[id].position <= highest
        decreases |left|
      {
        var id :| id in left;
        if rows[id].position > highest {
          highest := rows[id].position;
        }
        left := left - {id};
      }
      n := highest + 1;
    }

    /**
     * One transaction: whatever statement fails, nothing has changed; otherwise
     * the tables show the list with the record put.
     */
    method Put(record: Record, fault: nat) returns (done: Completion<StoreError>)
      requires Valid()
      modifies this
      ensures Valid() && open == old(open)
      ensures var outcome := if old(open) then PutOutcome(old(log), record, isTimestamp, fault) else Err(Unavailable);
              if outcome.Ok? then done == Done && log == outcome.value
              else done == Threw(outcome.error) && log == old(log) && rows == old(rows) && table == old(table)
    {
      if !open {
        return Threw(Unavailable);
      }
      var problems := RecordProblems(record, isTimestamp);
      if problems != [] {
        return Threw(InvalidRecord);
      }
      if fault == 0 {
        return Threw(DriverFailed);
      }
      if fault == 1 {
        return Threw(Unavailable);
      }
      if record.recordId in rows && rows[record.recordId].runId != record.runId {
        return Threw(Conflict);
      }
      ghost var next := PutList(log, record);
      var rowsBefore, tableBefore := rows, table;
      var written := Upsert(record, fault);
      if !written {
        rows, table := rowsBefore, tableBefore;
        return Threw(Unavailable);
      }
      log := next.value;
      done := Done;
    }

    /** The statements that write, and COMMIT. */
    method Upsert(record: Record, fault: nat) returns (written: bool)
      requires Valid() && fault > 1 && PutList(log, record).Ok?
      modifies this`rows, this`table
      ensures written <==> fault > LastStatement(record)
      ensures written ==> Shows(rows, table, PutList(log, record).value)
    {
      if fault == 2 {
        return false;
      }
      var position := NextPosition();
      if record.recordId in rows {
        position := rows[record.recordId].position;
      }
      rows := rows[record.recordId := RowOf(record, position)];
      if fault == 3 {
        return false;
      }
      var others := Untagged(table, record.recordId);
      table := others;
      for i := 0 to |record.tags|
        invariant rows == old(rows)[record.recordId := RowOf(record, position)]
        invariant forall id, t :: (id, t) in table <==>
                    if id == record.recordId then t in record.tags[..i] else (id, t) in old(table)
        invariant fault >= 4 + i
      {
        if fault == 4 + i {
          return false;
        }
        table := table + {(record.recordId, record.tags[i])};
        assert record.tags[..i + 1] == record.tags[..i] + [record.tags[i]];
      }
      if fault == LastStatement(record) {
        return false;
      }
      assert record.tags[..|record.tags|] == record.tags;
      PutShows(old(rows), old(table), log, record, position, table);
      written := true;
    }

    method Get(recordId: string) returns (r: Result<Option<Record>, StoreError>)
      requires Valid()
      ensures r == if open then Ok(Lookup(log, recordId)) else Err(Unavailable)
    {
      if !open {
        return Err(Unavailable);
      }
      if recordId !in rows {
        assert Lookup(log, recordId).None?;
        return Ok(None);
      }
      r := Ok(Some(rows[recordId].body));
    }

    /** The answer of the list contract, whatever order the database scans its rows in. */
    method Select(query: Query, scan: seq<string>) returns (r: Result<seq<Record>, StoreError>)
      requires Valid() && IsScan(rows, scan)
      ensures r == if open then Ok(Answer(log, query)) else Err(Unavailable)
    {
      if !open {
        return Err(Unavailable);
      }
      var clauses := WhereClause(query);
      SelectIsAnswer(rows, table, log, query, scan);
      var found := Lists.Sort(RowBefore, Lists.Filter(Selecting(table, clauses), Scanned(rows, scan)));
      BodiesCut(found, query.limit);
      var limited := found;
      if query.limit.Some? {
        limited := found[..Min(|found|, Max(0, query.limit.value))];
      }
      assert limited == Cut(found, query.limit);
      r := Ok(Bodies(limited));
    }

    method Count(query: Query, scan: seq<string>) returns (r: Result<nat, StoreError>)
      requires Valid() && IsScan(rows, scan)
      ensures r == if open then Ok(CountOf(log, query)) else Err(Unavailable)
    {
      if !open {
        return Err(Unavailable);
      }
      var clauses := WhereClause(query);
      SelectIsAnswer(rows, table, log, query, scan);
      r := Ok(|Lists.Filter(Selecting(table, clauses), Scanned(rows, scan))|);
    }
  }

  // -------------------------------------------------------- what the contract means

  /** After any sequence of puts, refused ones left out. */
  function PutAll(log: Log, records: seq<Record>): Log
    decreases |records|
  {
    if records == [] then log
    else
      var next := PutList(log, records[0]);
      PutAll(if next.Ok? then next.value else log, records[1..])
  }

  /** Ids stay distinct, positions stay, and no record ever changes its run. */
  lemma {:induction false} RunsNeverChange(log: Log, records: seq<Record>)
    requires DistinctIds(log)
    ensures DistinctIds(PutAll(log, records)) && |log| <= |PutAll(log, records)|
    ensures forall i :: 0 <= i < |log| ==>
              PutAll(log, records)[i].recordId == log[i].recordId && PutAll(log, records)[i].runId == log[i].runId
    decreases |records|
  {
    if records != [] {
      var next := PutList(log, records[0]);
      if next.Ok? {
        PutKeepsIds(log, records[0]);
      }
      RunsNeverChange(if next.Ok? then next.value else log, records[1..]);
    }
  }

  /** `a` stands in front of `b` in the list. */
  ghost predicate StoredBefore(log: Log, a: Record, b: Record) {
    PositionOf(log, a.recordId).Some? && PositionOf(log, b.recordId).Some?
    && PositionOf(log, a.recordId).value < PositionOf(log, b.recordId).value
  }

  ghost predicate TiesInOrder(log: Log, answer: seq<Record>) {
    forall i, j :: 0 <= i < j < |answer| && answer[i].createdAt == answer[j].createdAt ==> StoredBefore(log, answer[i], answer[j])
  }

  /** Of two answered records of one time, the one whose first put came first stands first. */
  lemma TiesKeepTheirOrder(log: Log, query: Query, i: nat, j: nat)
    requires DistinctIds(log) && i < j < |Answer(log, query)|
    requires Answer(log, query)[i].createdAt == Answer(log, query)[j].createdAt
    ensures StoredBefore(log, Answer(log, query)[i], Answer(log, query)[j])
  {
    var kept := Lists.Filter(Meeting(query), log);
    var a, b := Answer(log, query)[i], Answer(log, query)[j];
    LessTrichotomy(a.createdAt, b.createdAt);
    Lists.SortIsStable(Earlier, kept, i, j);
    var x, y :| 0 <= x < y < |kept| && kept[x] == a && kept[y] == b;
    Lists.FilterKeepsOrder(Meeting(query), log, x, y);
    var p, q :| 0 <= p < q < |log| && log[p] == a && log[q] == b;
    LookupIs(log, p);
    LookupIs(log, q);
  }

  lemma TiesAreInOrder(log: Log, query: Query)
    requires DistinctIds(log)
    ensures TiesInOrder(log, Answer(log, query))
  {
    var answer := Answer(log, query);
    forall i, j | 0 <= i < j < |answer| && answer[i].createdAt == answer[j].createdAt
      ensures StoredBefore(log, answer[i], answer[j])
    {
      TiesKeepTheirOrder(log, query, i, j);
    }
  }

  /**
   * The matching records, earliest first, ties in the order of the list, and no
   * match left out is earlier than one returned.
   */
  lemma AnswerIsTheEarliest(log: Log, query: Query)
    ensures var all := Lists.Sort(Earlier, Lists.Filter(Meeting(query), log));
            && Answer(log, query) == Cut(all, query.limit) && |all| == CountOf(log, query)
            && (forall i, j :: 0 <= i < j < |all| ==> !Less(all[j].createdAt, all[i].createdAt))
            && (forall x :: x in all <==> x in log && Meets(query, x))
            && (forall x, y :: x in Answer(log, query) && y in all && y !in Answer(log, query) ==> !Less(y.createdAt, x.createdAt))
    ensures DistinctIds(log) ==> TiesInOrder(log, Answer(log, query))
  {
    var kept := Lists.Filter(Meeting(query), log);
    var all := Lists.Sort(Earlier, kept);
    TimesAreOrdered(kept);
    Lists.SortSorts(Earlier, kept);
    Lists.SortPermutes(Earlier, kept);
    forall x
      ensures x in all <==> x in log && Meets(query, x)
    {
      Lists.SortHas(Earlier, kept, x);
      Lists.FilterHas(Meeting(query), log, x);
    }
    forall x, y | x in Answer(log, query) && y in all && y !in Answer(log, query)
      ensures !Earlier(y, x)
    {
      Lists.BehindTheCut(Earlier, all, |Answer(log, query)|, x, y);
    }
    if DistinctIds(log) {
      TiesAreInOrder(log, query);
    }
  }

  lemma TimesAreOrdered(s: seq<Record>)
    ensures Lists.IsOrderOn(Earlier, s)
  {
    forall a, b | a in s && b in s
      ensures !(Earlier(a, b) && Earlier(b, a))
    {
      LessTrichotomy(a.createdAt, b.createdAt);
    }
    forall a, b, c | a in s && b in s && c in s && !Earlier(b, a) && !Earlier(c, b)
      ensures !Earlier(c, a)
    {
      NotAfterTransitive(a.createdAt, b.createdAt, c.createdAt);
    }
  }

  /** No record is answered twice. */
  lemma AnswerIsDistinct(log: Log, query: Query)
    requires DistinctIds(log)
    ensures DistinctIds(Answer(log, query))
  {
    var kept := Lists.Filter(Meeting(query), log);
    var all := Lists.Sort(Earlier, kept);
    Lists.FilterDistinct(Meeting(query), log);
    Lists.SortPermutes(Earlier, kept);
    forall i, j | 0 <= i < j < |all|
      ensures all[i].recordId != all[j].recordId
    {
      Lists.SortHas(Earlier, kept, all[i]);
      Lists.SortHas(Earlier, kept, all[j]);
      Lists.FilterHas(Meeting(query), log, all[i]);
      Lists.FilterHas(Meeting(query), log, all[j]);
      Lists.DistinctOnce(kept, all[i]);
      TwoPlaces(log, all, i, j);
    }
  }

  lemma TwoPlaces(log: Log, all: seq<Record>, i: nat, j: nat)
    requires DistinctIds(log) && i < j < |all| && all[i] in log && all[j] in log && multiset(all)[all[i]] <= 1
    ensures all[i].recordId != all[j].recordId
  {
    Lists.DistinctPlaces(all, i, j);
    var a :| 0 <= a < |log| && log[a] == all[i];
    var b :| 0 <= b < |log| && log[b] == all[j];
  }
}
