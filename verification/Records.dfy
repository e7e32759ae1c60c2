// src/memory/records.ts: what every persistent memory record carries.

module Records {
  import opened Support

  datatype Kind = Knowledge | Experience | DecisionKind | LessonKind

  datatype Record = Record(recordId: string, kind: Kind, runId: string, goalId: Option<string>, taskId: Option<string>,
                           createdAt: string, summary: string, tags: seq<string>)

  predicate DistinctIds(records: seq<Record>) {
    forall i, j :: 0 <= i < j < |records| ==> records[i].recordId != records[j].recordId
  }
}
