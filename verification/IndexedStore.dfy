// src/memory/indexed-memory-store.ts: every record is stored first and embedded
// afterwards, and an embedding that fails leaves the record without a new vector.

module IndexedStore {
  import opened Support
  import opened Text
  import opened Records
  import opened MemoryStore
  import opened SemanticIndex
  import Lists

  datatype IndexFailure = IndexFailure(recordId: string, kind: Kind, error: IndexError)
  datatype BackfillReport = BackfillReport(examined: nat, indexed: nat, failed: nat)
  datatype BackfillError = QueryFailed(reason: StoreError) | IndexUnavailable(error: IndexError)

  /** How many of the records have a vector of the model. */
  function HeldCount(rows: SemanticIndex.Rows, descriptor: Descriptor, records: seq<Record>): nat {
    if records == [] then 0
    else HeldCount(rows, descriptor, records[..|records| - 1])
         + if Held(rows, descriptor, records[|records| - 1].recordId) then 1 else 0
  }

  ghost predicate AllHeld(rows: SemanticIndex.Rows, descriptor: Descriptor, records: seq<Record>) {
    forall i :: 0 <= i < |records| ==> Held(rows, descriptor, records[i].recordId)
  }

  lemma {:induction false} AllHeldCount(rows: SemanticIndex.Rows, descriptor: Descriptor, records: seq<Record>)
    requires AllHeld(rows, descriptor, records)
    ensures HeldCount(rows, descriptor, records) == |records|
  {
    if records != [] {
      AllHeldCount(rows, descriptor, records[..|records| - 1]);
    }
  }

  /** Nothing stands in the way of a vector of this text: there is one, or a new one is made and written. */
  predicate Embeddable(open: bool, text: string, world: World, current: bool) {
    open && Trim(text) != "" && (current || (world.vectors.Ok? && world.vectors.value != [] && world.stored))
  }

  /** The vector is the one it was, of this text already, or the answer that the embedder gave to this text. */
  ghost predicate RightVector(rows: SemanticIndex.Rows, after: SemanticIndex.Rows, descriptor: Descriptor, recordId: string,
                              hash: string, text: string, world: World)
  {
    recordId in after &&
    if IsCurrent(rows, descriptor, recordId, hash) then after[recordId] == rows[recordId]
    else (text, after[recordId].vector) in AnswerTo(text, world)
  }

  class IndexedMemoryStore {
    const inner: SqliteMemoryStore
    const index: SqliteSemanticIndex
    const searchableText: Record -> string
    var failures: seq<IndexFailure>
    /** The records whose last put, or a later backfill, embedded them. */
    ghost var embedded: set<string>

    constructor (inner: SqliteMemoryStore, index: SqliteSemanticIndex, searchableText: Record -> string)
      requires inner.Valid() && index.Honest() && forall id :: id in index.rows ==> Lookup(inner.log, id).Some?
      ensures Valid() && this.inner == inner && this.index == index && this.searchableText == searchableText
      ensures failures == [] && embedded == {}
    {
      this.inner, this.index, this.searchableText := inner, index, searchableText;
      failures, embedded := [], {};
    }

    /** The row of a stored record was made from its current text. */
    ghost predicate IsFresh(recordId: string)
      reads this, inner, index
    {
      FreshIn(inner.log, index.rows, index.descriptor, index.hashOf, searchableText, recordId)
    }

    /** Vectors exist only for stored records, and those of embedded records are current. */
    ghost predicate Valid()
      reads this, inner, index
    {
      && inner.Valid() && InStep(inner.log, index.rows, index.descriptor, index.hashOf, searchableText, embedded)
      && index.Honest()
    }

    /**
     * With a hash that tells texts apart, a fresh row that did not come with the
     * file holds a vector that the embedder returned for the record's current text.
     */
    lemma FreshIsAnswered(recordId: string)
      requires Valid() && IsFresh(recordId) && !FromFile(index.original, index.rows, recordId)
      requires forall a, b :: index.hashOf(a) == index.hashOf(b) ==> a == b
      ensures (searchableText(Lookup(inner.log, recordId).value), index.rows[recordId].vector) in index.answers
    {
      CurrentIsAnswered(index.original, index.rows, index.descriptor, index.hashOf, index.answers, recordId,
                        searchableText(Lookup(inner.log, recordId).value));
    }

    /**
     * Stores first, embeds second; a failed embedding is remembered and loses
     * nothing. The vector is of the stored text exactly when it was so before or
     * nothing stands in the way of a new one; other records stay as they were.
     */
    method Put(record: Record, fault: nat, world: World) returns (done: Completion<StoreError>)
      requires Valid()
      modifies this`failures, this`embedded, inner, index`rows, index`answers
      ensures Valid() && inner.open == old(inner.open)
      ensures var outcome := if old(inner.open) then PutOutcome(old(inner.log), record, inner.isTimestamp, fault) else Err(Unavailable);
              if outcome.Ok? then done == Done && inner.log == outcome.value
              else done == Threw(outcome.error) && inner.log == old(inner.log) && index.rows == old(index.rows)
                   && embedded == old(embedded) && failures == old(failures)
      ensures done == Done ==> PutEmbeds(record, world, old(index.rows), old(embedded), old(failures))
      ensures old(index.answers) <= index.answers <= old(index.answers) + AnswerTo(searchableText(record), world)
      ensures done == Done ==> FreshAfterPut(old(inner.log), inner.log, record, old(index.rows), index.rows, index.descriptor,
                                             index.hashOf, searchableText, index.open, world)
    {
      done := inner.Put(record, fault);
      if done.Threw? {
        return;
      }
      IndexStored(old(inner.log), record, world);
    }

    /** The second half of a put: the record is in the store, its vector may be of an older text. */
    method IndexStored(ghost log: Log, record: Record, world: World)
      requires inner.Valid() && DistinctIds(log) && PutList(log, record) == Ok(inner.log)
      requires InStep(log, index.rows, index.descriptor, index.hashOf, searchableText, embedded) && index.Honest()
      modifies this`failures, this`embedded, index`rows, index`answers
      ensures Valid() && PutEmbeds(record, world, old(index.rows), old(embedded), old(failures))
      ensures old(index.answers) <= index.answers <= old(index.answers) + AnswerTo(searchableText(record), world)
      ensures FreshAfterPut(log, inner.log, record, old(index.rows), index.rows, index.descriptor,
                            index.hashOf, searchableText, index.open, world)
    {
      var indexed := TryIndex(record, world);
      PutKeepsStep(log, inner.log, record, old(index.rows), index.rows, index.descriptor, index.hashOf, searchableText, embedded, indexed);
      PutFreshness(log, inner.log, record, old(index.rows), index.rows, index.descriptor, index.hashOf, searchableText,
                   index.open, world, indexed);
      embedded := if indexed then embedded + {record.recordId} else embedded - {record.recordId};
    }

    /** After a stored put the record is embedded and nothing failed, or it is not and the failure is on record. */
    ghost predicate PutEmbeds(record: Record, world: World, rows: SemanticIndex.Rows, before: set<string>, failed: seq<IndexFailure>)
      reads this, index
    {
      && (embedded == if record.recordId in embedded then before + {record.recordId} else before - {record.recordId})
      && (if record.recordId in embedded then failures == failed
          else index.rows == rows && |failures| == |failed| + 1 && failures[..|failed|] == failed
               && failures[|failed|].recordId == record.recordId && failures[|failed|].kind == record.kind
               && Some(failures[|failed|].error) == Obstacle(index.open, searchableText(record), world))
      && (record.recordId in embedded ==>
            RightVector(rows, index.rows, index.descriptor, record.recordId, index.hashOf(searchableText(record)),
                        searchableText(record), world))
      && (record.recordId in embedded <==>
            Embeddable(index.open, searchableText(record), world,
                       IsCurrent(rows, index.descriptor, record.recordId, index.hashOf(searchableText(record)))))
    }

    method TryIndex(record: Record, world: World) returns (indexed: bool)
      modifies this`failures, index`rows, index`answers
      ensures indexed ==> failures == old(failures) && index.open
                          && IsCurrent(index.rows, index.descriptor, record.recordId, index.hashOf(searchableText(record)))
      ensures !indexed ==> index.rows == old(index.rows)
                           && |failures| == |old(failures)| + 1 && failures[..|old(failures)|] == old(failures)
                           && failures[|old(failures)|].recordId == record.recordId && failures[|old(failures)|].kind == record.kind
                           && Some(failures[|old(failures)|].error) == Obstacle(index.open, searchableText(record), world)
      ensures indexed ==> RightVector(old(index.rows), index.rows, index.descriptor, record.recordId,
                                      index.hashOf(searchableText(record)), searchableText(record), world)
      ensures old(index.answers) <= index.answers <= old(index.answers) + AnswerTo(searchableText(record), world)
      ensures old(index.Honest()) ==> index.Honest()
      ensures index.rows - {record.recordId} == old(index.rows) - {record.recordId}
      ensures indexed <==> Embeddable(index.open, searchableText(record), world,
                                      old(IsCurrent(index.rows, index.descriptor, record.recordId, index.hashOf(searchableText(record)))))
    {
      var done := index.Index(record.recordId, searchableText(record), world);
      if done.Threw? {
        failures := failures + [IndexFailure(record.recordId, record.kind, done.error)];
      }
      indexed := done == Done;
    }

    /**
     * Every record the query names was held already, is indexed now, or is a
     * failure; when none failed, all of them are held, and when all were held
     * before, nothing is done. A backfill replaces no vector, so when none failed
     * all the records are fresh if and only if those held before were.
     */
    method Backfill(query: Query, scan: seq<string>, world: nat -> World) returns (r: Result<BackfillReport, BackfillError>)
      requires Valid() && MemoryStore.IsScan(inner.rows, scan)
      modifies this`failures, this`embedded, index`rows, index`answers
      ensures Valid() && old(embedded) <= embedded && Kept(old(index.rows), index.rows, index.descriptor)
      ensures r.Err? <==> !inner.open || (!index.open && Answer(inner.log, query) != [])
      ensures AnswersCame(Answer(inner.log, query), world, old(index.answers), index.answers)
      ensures r.Ok? ==> Backfilled(Answer(inner.log, query), old(State()), State(), index.descriptor, r.value)
      ensures FreshAfter(inner.log, old(index.rows), index.rows, index.descriptor, index.hashOf, searchableText)
      ensures r.Ok? && r.value.failed == 0 ==>
                (AllFresh(Answer(inner.log, query)) <==> old(HeldAreFresh(Answer(inner.log, query))))
    {
      var found := inner.Select(query, scan);
      if found.Err? {
        KeptIsFresh(inner.log, index.rows, index.rows, index.descriptor, index.hashOf, searchableText, embedded);
        return Err(QueryFailed(found.error));
      }
      AnswerIsDistinct(inner.log, query);
      AnswerIsStored(inner.log, query);
      var counts := BackfillAll(found.value, world);
      KeptIsFresh(inner.log, old(index.rows), index.rows, index.descriptor, index.hashOf, searchableText, embedded);
      if counts.Err? {
        return Err(IndexUnavailable(counts.error));
      }
      AllFreshIff(inner.log, old(index.rows), index.rows, index.descriptor, index.hashOf, searchableText, found.value);
      r := Ok(counts.value);
    }

    /** Every new answer is what the embedder returned for one of the records. */
    ghost predicate AnswersCame(records: seq<Record>, world: nat -> World, before: set<(string, Vector)>, after: set<(string, Vector)>) {
      && before <= after
      && forall a :: a in after && a !in before ==> exists i: nat :: i < |records| && a in AnswerTo(searchableText(records[i]), world(i))
    }

    ghost predicate AllFresh(records: seq<Record>)
      reads this, inner, index
    {
      AllFreshIn(inner.log, index.rows, index.descriptor, index.hashOf, searchableText, records)
    }

    /** Those of the records that have a vector have one of their text. */
    ghost predicate HeldAreFresh(records: seq<Record>)
      reads this, inner, index
    {
      HeldFreshIn(inner.log, index.rows, index.descriptor, index.hashOf, searchableText, records)
    }

    /** The values that a backfill changes. */
    ghost function State(): IndexState
      reads this, index
    {
      IndexState(index.rows, embedded, failures)
    }

    method BackfillAll(records: seq<Record>, world: nat -> World) returns (r: Result<BackfillReport, IndexError>)
      requires Valid() && DistinctIds(records)
      requires forall i :: 0 <= i < |records| ==> Lookup(inner.log, records[i].recordId) == Some(records[i])
      modifies this`failures, this`embedded, index`rows, index`answers
      ensures Valid() && old(embedded) <= embedded && Kept(old(index.rows), index.rows, index.descriptor)
      ensures NewAreEmbedded(old(index.rows), index.rows, index.descriptor, embedded)
      ensures r.Err? <==> !index.open && records != []
      ensures AnswersCame(records, world, old(index.answers), index.answers)
      ensures r.Ok? ==> Backfilled(records, old(State()), State(), index.descriptor, r.value)
    {
      ghost var start := State();
      StartBackfill(start, index.descriptor, records);
      var indexed, failed := 0, 0;
      for i := 0 to |records|
        invariant Valid() && (i > 0 ==> index.open)
        invariant AnswersCame(records, world, old(index.answers), index.answers)
        invariant Underway(start, State(), index.descriptor, records, i, indexed, failed)
      {
        ghost var before := State();
        var step :- BackfillOne(records[i], world(i));
        OneMore(start, before, State(), index.descriptor, records, i, indexed, failed, step);
        indexed := if step == Indexed then indexed + 1 else indexed;
        failed := if step == FailedToIndex then failed + 1 else failed;
      }
      NothingLeft(start, State(), index.descriptor, records, indexed, failed);
      r := Ok(BackfillReport(|records|, indexed, failed));
    }

    /** One turn of the loop: skipped when the model holds a vector, whatever text it was made from. */
    method BackfillOne(record: Record, world: World) returns (r: Result<BackfillStep, IndexError>)
      requires Valid() && Lookup(inner.log, record.recordId) == Some(record)
      modifies this`failures, this`embedded, index`rows, index`answers
      ensures Valid()
      ensures r.Err? <==> !index.open
      ensures r.Err? ==> State() == old(State())
      ensures r.Ok? ==> Stepped(old(State()), State(), index.descriptor, record.recordId, r.value)
      ensures r == Ok(Indexed) ==> (searchableText(record), index.rows[record.recordId].vector) in AnswerTo(searchableText(record), world)
      ensures old(index.answers) <= index.answers <= old(index.answers) + AnswerTo(searchableText(record), world)
    {
      var contained :- index.Contains(record.recordId);
      if contained {
        return Ok(AlreadyHeld);
      }
      ghost var rows := index.rows;
      var now := TryIndex(record, world);
      if !now {
        return Ok(FailedToIndex);
      }
      IndexKeepsStep(inner.log, record, rows, index.rows, index.descriptor, index.hashOf, searchableText, embedded);
      embedded := embedded + {record.recordId};
      r := Ok(Indexed);
    }

    /** Once a backfill ends with no failures, a second one indexes nothing. */
    method BackfillTwice(query: Query, scan: seq<string>, world: nat -> World, again: nat -> World)
      returns (first: BackfillReport, second: BackfillReport)
      requires Valid() && MemoryStore.IsScan(inner.rows, scan) && inner.open && index.open
      modifies this`failures, this`embedded, index`rows, index`answers
      ensures first.failed == 0 ==> second == BackfillReport(first.examined, 0, 0)
    {
      var a := this.Backfill(query, scan, world);
      var b := this.Backfill(query, scan, again);
      first, second := a.value, b.value;
    }

    /**
     * Freshness needs the last put to have embedded: a vector made from an older
     * text stays when embedding the new text fails, and no backfill replaces it.
     */
    method StaleVectorStays(record: Record, world: World, query: Query, scan: seq<string>, later: nat -> World)
      returns (r: Result<BackfillReport, BackfillError>)
      requires Valid() && inner.open && index.open && Storable(record, inner.isTimestamp)
      requires PutList(inner.log, record).Ok? && Held(index.rows, index.descriptor, record.recordId)
      requires index.rows[record.recordId].hash != index.hashOf(searchableText(record)) && world.vectors.Err?
      requires MemoryStore.IsScan(inner.rows, scan)
      modifies this`failures, this`embedded, inner, index`rows, index`answers
      ensures Lookup(inner.log, record.recordId) == Some(record) && !IsFresh(record.recordId)
    {
      PutOfStale(record, world);
      SameKeys(old(inner.rows), old(inner.table), old(inner.log), inner.rows, inner.table, inner.log, record);
      r := this.Backfill(query, scan, later);
    }

    method PutOfStale(record: Record, world: World)
      requires Valid() && inner.open && index.open && Storable(record, inner.isTimestamp)
      requires PutList(inner.log, record).Ok? && Held(index.rows, index.descriptor, record.recordId)
      requires index.rows[record.recordId].hash != index.hashOf(searchableText(record)) && world.vectors.Err?
      modifies this`failures, this`embedded, inner, index`rows, index`answers
      ensures Valid() && inner.open && index.rows == old(index.rows) && Ok(inner.log) == PutList(old(inner.log), record)
      ensures Lookup(inner.log, record.recordId) == Some(record) && record.recordId in old(inner.rows)
    {
      LookupAfterPut(inner.log, record, record.recordId);
      StoredIffRow(inner.rows, inner.table, inner.log, record.recordId);
      var done := this.Put(record, LastStatement(record) + 1, world);
    }
  }

  function NoteOf(summary: string): Record {
    Record("note", Knowledge, "run", None, None, "2026-01-01", summary, [])
  }

  const EVERYTHING := Query(None, None, None, None, None, None)

  /** A note stored from empty tables and embedded. */
  method EmbeddedNote(summary: string) returns (store: IndexedMemoryStore)
    requires Trim(summary) != ""
    ensures fresh(store) && fresh(store.inner) && fresh(store.index) && store.Valid() && store.inner.open && store.index.open
    ensures store.inner.log == [NoteOf(summary)] && store.IsFresh("note")
    ensures Storable(NoteOf("new"), store.inner.isTimestamp)
    ensures store.index.hashOf(store.searchableText(NoteOf("new"))) == "new"
    ensures store.index.rows["note"].hash == summary
  {
    var inner := new SqliteMemoryStore(_ => true, map[], {}, []);
    var index := new SqliteSemanticIndex(Descriptor("provider", "model"), 10, (s: string) => s, (x: real) => x, map[]);
    store := new IndexedMemoryStore(inner, index, (r: Record) => r.summary);
    FirstNote(NoteOf(summary));
    var done := store.Put(NoteOf(summary), 5, World(Ok([[1.0]]), true));
  }

  /** A note stored and embedded, then stored again with another text while embeddings fail. */
  method StaleNote() returns (store: IndexedMemoryStore)
    ensures fresh(store) && fresh(store.inner) && fresh(store.index) && store.Valid() && store.inner.open && store.index.open
    ensures store.inner.log == [NoteOf("new")] && Held(store.index.rows, store.index.descriptor, "note")
    ensures !store.IsFresh("note")
  {
    TwoTexts();
    store := EmbeddedNote("old");
    NextNote(NoteOf("old"), NoteOf("new"));
    store.PutOfStale(NoteOf("new"), World(Err(EmbeddingFailed), true));
  }

  /**
   * From empty tables to a stale vector: the backfill examines the note, reports
   * neither work nor failure, and the vector is still of the older text.
   */
  method StaleExample() returns (store: IndexedMemoryStore, report: BackfillReport)
    ensures fresh(store) && store.Valid() && store.inner.log == [NoteOf("new")]
    ensures report == BackfillReport(1, 0, 0) && !store.IsFresh("note")
  {
    store := StaleNote();
    OneRow(store.inner.rows, store.inner.table, NoteOf("new"));
    EverythingIsAnswered(NoteOf("new"));
    var again := store.Backfill(EVERYTHING, ["note"], _ => World(Err(EmbeddingFailed), true));
    report := again.value;
  }

  lemma TwoTexts()
    ensures Trim("old") != "" && "old" != "new"
  {
    assert Trimmed("old");
    assert "old"[0] != "new"[0];
  }

  lemma FirstNote(record: Record)
    ensures PutList([], record) == Ok([record])
  {
    assert [] + [record] == [record];
  }

  lemma NextNote(record: Record, next: Record)
    requires record.recordId == next.recordId && record.runId == next.runId
    ensures PutList([record], next) == Ok([next])
  {
    assert [record][0 := next] == [next];
  }

  lemma OneRow(rows: MemoryStore.Rows, table: Tags, record: Record)
    requires Shows(rows, table, [record])
    ensures MemoryStore.IsScan(rows, [record.recordId])
  {
    assert [record][0] == record;
    forall id
      ensures id in [record.recordId] <==> id in rows
    {
      StoredIffRow(rows, table, [record], id);
    }
  }

  lemma EverythingIsAnswered(record: Record)
    ensures Answer([record], EVERYTHING) == [record]
  {
    assert Meets(EVERYTHING, record);
    assert Lists.Filter(Meeting(EVERYTHING), [record]) == [record];
    assert Lists.Sort(Earlier, [record]) == [record];
  }

  /** What one turn of a backfill did. */
  datatype BackfillStep = AlreadyHeld | Indexed | FailedToIndex

  /** The books of a backfill over `records`. */
  ghost predicate Backfilled(records: seq<Record>, start: IndexState, now: IndexState, descriptor: Descriptor, r: BackfillReport) {
    && r.examined == |records| == HeldCount(start.rows, descriptor, records) + r.indexed + r.failed
    && |now.failures| == |start.failures| + r.failed
    && (r.failed == 0 ==> AllHeld(now.rows, descriptor, records))
    && (AllHeld(start.rows, descriptor, records) ==>
          r.indexed == 0 == r.failed && now.rows == start.rows && now.failures == start.failures)
  }

  datatype IndexState = IndexState(rows: SemanticIndex.Rows, embedded: set<string>, failures: seq<IndexFailure>)

  ghost predicate Stepped(before: IndexState, after: IndexState, descriptor: Descriptor, recordId: string, step: BackfillStep) {
    && (step == AlreadyHeld <==> Held(before.rows, descriptor, recordId))
    && (if step == Indexed then Held(after.rows, descriptor, recordId) && after.rows - {recordId} == before.rows - {recordId}
        else after.rows == before.rows)
    && after.embedded == (if step == Indexed then before.embedded + {recordId} else before.embedded)
    && (if step == FailedToIndex then |after.failures| == |before.failures| + 1 else after.failures == before.failures)
  }

  ghost predicate FreshIn(log: Log, rows: SemanticIndex.Rows, descriptor: Descriptor, hashOf: string -> string,
                          text: Record -> string, recordId: string)
  {
    && Lookup(log, recordId).Some?
    && IsCurrent(rows, descriptor, recordId, hashOf(text(Lookup(log, recordId).value)))
  }

  ghost predicate InStep(log: Log, rows: SemanticIndex.Rows, descriptor: Descriptor, hashOf: string -> string,
                         text: Record -> string, embedded: set<string>)
  {
    && (forall id :: id in rows ==> Lookup(log, id).Some?)
    && (forall id :: id in embedded ==> FreshIn(log, rows, descriptor, hashOf, text, id))
  }

  /** A put changes one record, and its vector only when it was embedded anew. */
  lemma PutKeepsStep(log: Log, next: Log, record: Record, rows: SemanticIndex.Rows, after: SemanticIndex.Rows, descriptor: Descriptor,
                     hashOf: string -> string, text: Record -> string, embedded: set<string>, indexed: bool)
    requires DistinctIds(log) && PutList(log, record) == Ok(next) && InStep(log, rows, descriptor, hashOf, text, embedded)
    requires after - {record.recordId} == rows - {record.recordId} && (!indexed ==> after == rows)
    requires indexed ==> IsCurrent(after, descriptor, record.recordId, hashOf(text(record)))
    ensures InStep(next, after, descriptor, hashOf, text, if indexed then embedded + {record.recordId} else embedded - {record.recordId})
  {
    forall id
      ensures id in after ==> Lookup(next, id).Some?
      ensures id != record.recordId && id in embedded ==> FreshIn(next, after, descriptor, hashOf, text, id)
    {
      LookupAfterPut(log, record, id);
      OtherRow(rows, after, record.recordId, id);
      assert id in embedded ==> FreshIn(log, rows, descriptor, hashOf, text, id);
    }
    LookupAfterPut(log, record, record.recordId);
  }

  /**
   * When a stored put leaves a vector of the stored text, told by what is known
   * before it. Whether other records are fresh does not change.
   */
  ghost predicate FreshAfterPut(log: Log, next: Log, record: Record, rows: SemanticIndex.Rows, after: SemanticIndex.Rows,
                                descriptor: Descriptor, hashOf: string -> string, text: Record -> string,
                                open: bool, world: World)
  {
    var current := IsCurrent(rows, descriptor, record.recordId, hashOf(text(record)));
    var isFresh := FreshIn(next, after, descriptor, hashOf, text, record.recordId);
    && (isFresh <==> current || Embeddable(open, text(record), world, current))
    && (open && Trim(text(record)) != "" ==> (isFresh <==> Embeddable(open, text(record), world, current)))
    && (forall id :: id != record.recordId ==>
          (FreshIn(next, after, descriptor, hashOf, text, id) <==> FreshIn(log, rows, descriptor, hashOf, text, id)))
  }

  lemma PutFreshness(log: Log, next: Log, record: Record, rows: SemanticIndex.Rows, after: SemanticIndex.Rows,
                     descriptor: Descriptor, hashOf: string -> string, text: Record -> string,
                     open: bool, world: World, indexed: bool)
    requires DistinctIds(log) && PutList(log, record) == Ok(next)
    requires after - {record.recordId} == rows - {record.recordId} && (!indexed ==> after == rows)
    requires indexed <==> Embeddable(open, text(record), world, IsCurrent(rows, descriptor, record.recordId, hashOf(text(record))))
    requires indexed ==> IsCurrent(after, descriptor, record.recordId, hashOf(text(record)))
    ensures FreshAfterPut(log, next, record, rows, after, descriptor, hashOf, text, open, world)
  {
    LookupAfterPut(log, record, record.recordId);
    forall id | id != record.recordId
      ensures FreshIn(next, after, descriptor, hashOf, text, id) <==> FreshIn(log, rows, descriptor, hashOf, text, id)
    {
      LookupAfterPut(log, record, id);
      OtherRow(rows, after, record.recordId, id);
    }
  }

  lemma OtherRow(rows: SemanticIndex.Rows, after: SemanticIndex.Rows, recordId: string, id: string)
    requires after - {recordId} == rows - {recordId}
    ensures id != recordId ==> (id in after <==> id in rows) && (id in rows ==> after[id] == rows[id])
  {
    assert id != recordId ==> (id in after - {recordId} <==> id in after) && (id in rows - {recordId} <==> id in rows);
    assert id != recordId && id in rows ==> (after - {recordId})[id] == (rows - {recordId})[id];
  }

  lemma IndexKeepsStep(log: Log, record: Record, rows: SemanticIndex.Rows, after: SemanticIndex.Rows, descriptor: Descriptor,
                       hashOf: string -> string, text: Record -> string, embedded: set<string>)
    requires Lookup(log, record.recordId) == Some(record) && InStep(log, rows, descriptor, hashOf, text, embedded)
    requires after - {record.recordId} == rows - {record.recordId}
    requires IsCurrent(after, descriptor, record.recordId, hashOf(text(record)))
    ensures InStep(log, after, descriptor, hashOf, text, embedded + {record.recordId})
  {
    forall id
      ensures id != record.recordId ==> (id in after <==> id in rows) && (id in rows ==> after[id] == rows[id])
    {
      OtherRow(rows, after, record.recordId, id);
    }
  }

  lemma SameKeys(rows: MemoryStore.Rows, table: Tags, log: Log, rows2: MemoryStore.Rows, table2: Tags, log2: Log, record: Record)
    requires Shows(rows, table, log) && Shows(rows2, table2, log2) && record.recordId in rows
    requires PutList(log, record) == Ok(log2)
    ensures forall id :: id in rows2 <==> id in rows
  {
    forall id
      ensures id in rows2 <==> id in rows
    {
      LookupAfterPut(log, record, id);
      StoredIffRow(rows, table, log, id);
      StoredIffRow(rows2, table2, log2, id);
    }
  }

  lemma StoredIffRow(rows: MemoryStore.Rows, table: Tags, log: Log, id: string)
    requires Shows(rows, table, log)
    ensures id in rows <==> Lookup(log, id).Some?
  {
  }

  /** A record of an answer is the stored record of its id. */
  lemma StoredRecord(log: Log, query: Query, record: Record)
    requires DistinctIds(log) && record in Answer(log, query)
    ensures Lookup(log, record.recordId) == Some(record)
  {
    AnswerIsTheEarliest(log, query);
    var all := Lists.Sort(Earlier, Lists.Filter(Meeting(query), log));
    assert record in all;
    var i :| 0 <= i < |log| && log[i] == record;
    LookupIs(log, i);
  }

  lemma AnswerIsStored(log: Log, query: Query)
    requires DistinctIds(log)
    ensures forall i :: 0 <= i < |Answer(log, query)| ==>
              Lookup(log, Answer(log, query)[i].recordId) == Some(Answer(log, query)[i])
  {
    forall i | 0 <= i < |Answer(log, query)|
      ensures Lookup(log, Answer(log, query)[i].recordId) == Some(Answer(log, query)[i])
    {
      StoredRecord(log, query, Answer(log, query)[i]);
    }
  }

  // ---------------------------------------------------------------- the backfill loop

  /** No vector of the model is touched. */
  ghost predicate Kept(start: SemanticIndex.Rows, now: SemanticIndex.Rows, descriptor: Descriptor) {
    forall id :: Held(start, descriptor, id) ==> id in now && now[id] == start[id]
  }

  /** Every vector of the model that was not there is of an embedded record. */
  ghost predicate NewAreEmbedded(start: SemanticIndex.Rows, now: SemanticIndex.Rows, descriptor: Descriptor, embedded: set<string>) {
    forall id :: Held(now, descriptor, id) && !Held(start, descriptor, id) ==> id in embedded
  }

  /** Where no vector was replaced and the new ones are of embedded records, a record is fresh if held, and held fresh before or new. */
  lemma KeptIsFresh(log: Log, start: SemanticIndex.Rows, now: SemanticIndex.Rows, descriptor: Descriptor,
                    hashOf: string -> string, text: Record -> string, embedded: set<string>)
    requires InStep(log, now, descriptor, hashOf, text, embedded)
    requires Kept(start, now, descriptor) && NewAreEmbedded(start, now, descriptor, embedded)
    ensures FreshAfter(log, start, now, descriptor, hashOf, text)
  {
  }

  /** A record is fresh now if and only if it is held, and was fresh before if it was held before. */
  ghost predicate FreshAfter(log: Log, start: SemanticIndex.Rows, now: SemanticIndex.Rows, descriptor: Descriptor,
                             hashOf: string -> string, text: Record -> string)
  {
    forall id :: FreshIn(log, now, descriptor, hashOf, text, id) <==>
                 Held(now, descriptor, id)
                 && (Held(start, descriptor, id) ==> FreshIn(log, start, descriptor, hashOf, text, id))
  }

  ghost predicate AllFreshIn(log: Log, rows: SemanticIndex.Rows, descriptor: Descriptor, hashOf: string -> string,
                             text: Record -> string, records: seq<Record>)
  {
    forall i :: 0 <= i < |records| ==> FreshIn(log, rows, descriptor, hashOf, text, records[i].recordId)
  }

  ghost predicate HeldFreshIn(log: Log, rows: SemanticIndex.Rows, descriptor: Descriptor, hashOf: string -> string,
                              text: Record -> string, records: seq<Record>)
  {
    forall i :: 0 <= i < |records| && Held(rows, descriptor, records[i].recordId) ==>
                  FreshIn(log, rows, descriptor, hashOf, text, records[i].recordId)
  }

  lemma AllFreshIff(log: Log, start: SemanticIndex.Rows, now: SemanticIndex.Rows, descriptor: Descriptor,
                    hashOf: string -> string, text: Record -> string, records: seq<Record>)
    requires FreshAfter(log, start, now, descriptor, hashOf, text)
    ensures AllHeld(now, descriptor, records) ==>
              (AllFreshIn(log, now, descriptor, hashOf, text, records) <==> HeldFreshIn(log, start, descriptor, hashOf, text, records))
  {
    if AllHeld(now, descriptor, records) && AllFreshIn(log, now, descriptor, hashOf, text, records) {
      forall i | 0 <= i < |records| && Held(start, descriptor, records[i].recordId)
        ensures FreshIn(log, start, descriptor, hashOf, text, records[i].recordId)
      {
        assert FreshIn(log, now, descriptor, hashOf, text, records[i].recordId);
      }
    }
  }

  /** After `i` records: each was held, is indexed now, or failed; the rest of the table is as it was. */
  ghost predicate Progress(start: SemanticIndex.Rows, now: SemanticIndex.Rows, descriptor: Descriptor, records: seq<Record>,
                           i: nat, indexed: nat, failed: nat)
    requires i <= |records|
  {
    && i == HeldCount(start, descriptor, records[..i]) + indexed + failed
    && (forall k :: i <= k < |records| ==> (Held(now, descriptor, records[k].recordId) <==> Held(start, descriptor, records[k].recordId)))
    && (failed == 0 ==> AllHeld(now, descriptor, records[..i]))
  }

  /** The same, spelt so that the loop carries it whole; `GoingIs` unfolds it. */
  ghost predicate Going(start: SemanticIndex.Rows, now: SemanticIndex.Rows, descriptor: Descriptor, records: seq<Record>,
                        i: nat, indexed: nat, failed: nat)
    requires i <= |records|
  {
    forall k {:trigger records[..k]} :: k == i ==> Progress(start, now, descriptor, records, k, indexed, failed)
  }

  lemma GoingIs(start: SemanticIndex.Rows, now: SemanticIndex.Rows, descriptor: Descriptor, records: seq<Record>,
                i: nat, indexed: nat, failed: nat)
    requires i <= |records|
    ensures Going(start, now, descriptor, records, i, indexed, failed) <==>
            Progress(start, now, descriptor, records, i, indexed, failed)
  {
    assert records[..i] == records[..i];
  }

  /** What holds after `i` turns of the loop. */
  ghost predicate Underway(start: IndexState, now: IndexState, descriptor: Descriptor, records: seq<Record>, i: nat, indexed: nat, failed: nat)
    requires i <= |records|
  {
    && Kept(start.rows, now.rows, descriptor) && NewAreEmbedded(start.rows, now.rows, descriptor, now.embedded)
    && Going(start.rows, now.rows, descriptor, records, i, indexed, failed)
    && start.embedded <= now.embedded
    && |now.failures| == |start.failures| + failed && (failed == 0 ==> now.failures == start.failures)
    && (indexed == 0 ==> now.rows == start.rows)
  }

  lemma StartBackfill(state: IndexState, descriptor: Descriptor, records: seq<Record>)
    ensures Underway(state, state, descriptor, records, 0, 0, 0)
  {
    GoingIs(state.rows, state.rows, descriptor, records, 0, 0, 0);
  }

  lemma OneMore(start: IndexState, before: IndexState, after: IndexState, descriptor: Descriptor,
                records: seq<Record>, i: nat, indexed: nat, failed: nat, step: BackfillStep)
    requires i < |records| && DistinctIds(records) && Underway(start, before, descriptor, records, i, indexed, failed)
    requires Stepped(before, after, descriptor, records[i].recordId, step)
    ensures Underway(start, after, descriptor, records, i + 1, if step == Indexed then indexed + 1 else indexed,
                     if step == FailedToIndex then failed + 1 else failed)
  {
    forall id
      ensures id != records[i].recordId ==>
                (id in after.rows <==> id in before.rows) && (id in before.rows ==> after.rows[id] == before.rows[id])
    {
      if after.rows != before.rows {
        OtherRow(before.rows, after.rows, records[i].recordId, id);
      }
    }
    OneMoreGoing(start.rows, before, after, descriptor, records, i, indexed, failed, step);
  }

  lemma OneMoreGoing(start: SemanticIndex.Rows, before: IndexState, after: IndexState, descriptor: Descriptor,
                     records: seq<Record>, i: nat, indexed: nat, failed: nat, step: BackfillStep)
    requires i < |records| && DistinctIds(records) && Going(start, before.rows, descriptor, records, i, indexed, failed)
    requires Stepped(before, after, descriptor, records[i].recordId, step)
    requires forall id :: id != records[i].recordId ==>
               (id in after.rows <==> id in before.rows) && (id in before.rows ==> after.rows[id] == before.rows[id])
    ensures Going(start, after.rows, descriptor, records, i + 1, if step == Indexed then indexed + 1 else indexed,
                  if step == FailedToIndex then failed + 1 else failed)
  {
    GoingIs(start, before.rows, descriptor, records, i, indexed, failed);
    HeldOneMore(start, descriptor, records, i);
    GoingIs(start, after.rows, descriptor, records, i + 1, if step == Indexed then indexed + 1 else indexed,
            if step == FailedToIndex then failed + 1 else failed);
  }

  lemma HeldOneMore(rows: SemanticIndex.Rows, descriptor: Descriptor, records: seq<Record>, i: nat)
    requires i < |records|
    ensures HeldCount(rows, descriptor, records[..i + 1]) ==
            HeldCount(rows, descriptor, records[..i]) + if Held(rows, descriptor, records[i].recordId) then 1 else 0
  {
    assert records[..i + 1][..i] == records[..i];
  }

  lemma NothingLeft(start: IndexState, now: IndexState, descriptor: Descriptor, records: seq<Record>, indexed: nat, failed: nat)
    requires Underway(start, now, descriptor, records, |records|, indexed, failed)
    ensures Backfilled(records, start, now, descriptor, BackfillReport(|records|, indexed, failed))
  {
    GoingIs(start.rows, now.rows, descriptor, records, |records|, indexed, failed);
    assert records[..|records|] == records;
    if AllHeld(start.rows, descriptor, records) {
      AllHeldCount(start.rows, descriptor, records);
    }
  }
}
