// src/memory/sqlite/sqlite-semantic-index.ts: at most one vector per record.

module SemanticIndex {
  import opened Support
  import opened Text
  import Lists
  import Cosine
  import Retrieval

  type Vector = Cosine.Vector

  datatype Descriptor = Descriptor(provider: string, model: string)
  datatype VectorRow = VectorRow(descriptor: Descriptor, hash: string, vector: Vector, position: nat)
  type Rows = map<string, VectorRow>

  datatype IndexError = Closed | EmptyText | EmbeddingFailed | NoVector | StoreFailed

  /** How one embedding call and one write to the database end. */
  datatype World = World(vectors: Result<seq<Vector>, IndexError>, stored: bool)

  /** The record has a vector of this embedding model. */
  predicate Held(rows: Rows, descriptor: Descriptor, recordId: string) {
    recordId in rows && rows[recordId].descriptor == descriptor
  }

  /** The vector was made from this text. */
  predicate IsCurrent(rows: Rows, descriptor: Descriptor, recordId: string, hash: string) {
    Held(rows, descriptor, recordId) && rows[recordId].hash == hash
  }

  // ---------------------------------------------------------------------- search

  predicate Newer(a: (string, VectorRow), b: (string, VectorRow)) {
    a.1.position > b.1.position
  }

  predicate Better(a: Retrieval.Match, b: Retrieval.Match) {
    a.score > b.score || (a.score == b.score && Less(a.recordId, b.recordId))
  }

  function Eligible(descriptor: Descriptor, within: Option<seq<string>>): ((string, VectorRow)) -> bool {
    (entry: (string, VectorRow)) => entry.1.descriptor == descriptor && (within.Some? ==> entry.0 in within.value)
  }

  /** Every row once, in some order. */
  ghost predicate IsScan(rows: Rows, scan: seq<(string, VectorRow)>) {
    && (forall e :: e in scan <==> e.0 in rows && rows[e.0] == e.1)
    && (forall i, j :: 0 <= i < j < |scan| ==> scan[i].0 != scan[j].0)
  }

  function Candidates(scan: seq<(string, VectorRow)>, descriptor: Descriptor, within: Option<seq<string>>, most: nat)
    : (r: seq<(string, VectorRow)>)
    ensures |r| <= most
  {
    var found := Lists.Sort(Newer, Lists.Filter(Eligible(descriptor, within), scan));
    found[..Min(|found|, most)]
  }

  /** The similarity of every candidate of the query's dimension. */
  function Compared(candidates: seq<(string, VectorRow)>, query: Vector, sqrt: real -> real): (r: seq<Retrieval.Match>)
    ensures |r| <= |candidates|
  {
    if candidates == [] then []
    else
      var before, last := Compared(candidates[..|candidates| - 1], query, sqrt), candidates[|candidates| - 1];
      if |last.1.vector| != |query| then before
      else before + [Retrieval.Match(last.0, Cosine.Similarity(query, last.1.vector, sqrt))]
  }

  lemma {:induction false} ComparedAre(candidates: seq<(string, VectorRow)>, query: Vector, sqrt: real -> real, m: Retrieval.Match)
    ensures m in Compared(candidates, query, sqrt) <==>
            exists e :: e in candidates && e.0 == m.recordId && |e.1.vector| == |query|
                        && m.score == Cosine.Similarity(query, e.1.vector, sqrt)
  {
    if candidates != [] {
      var n := |candidates| - 1;
      ComparedAre(candidates[..n], query, sqrt, m);
      assert candidates == candidates[..n] + [candidates[n]];
      if e :| e in candidates && e.0 == m.recordId && |e.1.vector| == |query|
              && m.score == Cosine.Similarity(query, e.1.vector, sqrt) {
        assert e in candidates[..n] || e == candidates[n];
      }
    }
  }

  lemma BetterIsOrder(s: seq<Retrieval.Match>)
    ensures Lists.IsOrderOn(Better, s)
  {
    forall a, b | a in s && b in s
      ensures !(Better(a, b) && Better(b, a))
    {
      LessTrichotomy(a.recordId, b.recordId);
    }
    forall a, b, c | a in s && b in s && c in s && !Better(b, a) && !Better(c, b)
      ensures !Better(c, a)
    {
      NotAfterTransitive(a.recordId, b.recordId, c.recordId);
    }
  }

  /** What a search that compares rows returns. */
  function Found(scan: seq<(string, VectorRow)>, descriptor: Descriptor, within: Option<seq<string>>, most: nat,
                 query: Vector, sqrt: real -> real, limit: int): seq<Retrieval.Match>
  {
    var all := Lists.Sort(Better, Compared(Candidates(scan, descriptor, within, most), query, sqrt));
    all[..Min(|all|, Max(0, limit))]
  }

  /**
   * Every match is a row of this model, inside the asked set, with its own
   * similarity, which lies in [-1, 1]; and no compared row left out is better.
   */
  lemma FoundAreBest(rows: Rows, scan: seq<(string, VectorRow)>, descriptor: Descriptor, within: Option<seq<string>>, most: nat,
                     query: Vector, sqrt: real -> real, limit: int)
    requires IsScan(rows, scan) && Cosine.IsSqrt(sqrt)
    ensures var found := Found(scan, descriptor, within, most, query, sqrt, limit);
            var all := Compared(Candidates(scan, descriptor, within, most), query, sqrt);
            && (forall m :: m in found ==>
                  && m in all && Held(rows, descriptor, m.recordId) && (within.Some? ==> m.recordId in within.value)
                  && |rows[m.recordId].vector| == |query|
                  && m.score == Cosine.Similarity(query, rows[m.recordId].vector, sqrt) && -1.0 <= m.score <= 1.0)
            && (forall m, n :: m in found && n in all && n !in found ==>
                  m.score > n.score || (m.score == n.score && !Less(n.recordId, m.recordId)))
            && (forall i, j :: 0 <= i < j < |found| ==>
                  found[i].score > found[j].score
                  || (found[i].score == found[j].score && !Less(found[j].recordId, found[i].recordId)))
  {
    var all := Compared(Candidates(scan, descriptor, within, most), query, sqrt);
    var sorted := Lists.Sort(Better, all);
    var found := Found(scan, descriptor, within, most, query, sqrt, limit);
    BetterIsOrder(all);
    Lists.SortSorts(Better, all);
    forall m | m in found
      ensures m in all && Held(rows, descriptor, m.recordId) && (within.Some? ==> m.recordId in within.value)
      ensures |rows[m.recordId].vector| == |query|
      ensures m.score == Cosine.Similarity(query, rows[m.recordId].vector, sqrt) && -1.0 <= m.score <= 1.0
    {
      Lists.SortHas(Better, all, m);
      MatchIsRow(rows, scan, descriptor, within, most, query, sqrt, m);
    }
    forall i, j | 0 <= i < j < |found|
      ensures !Better(found[j], found[i])
    {
      assert found[i] == sorted[i] && found[j] == sorted[j];
    }
    forall m, n | m in found && n in all && n !in found
      ensures !Better(n, m)
    {
      Lists.SortHas(Better, all, n);
      Lists.BehindTheCut(Better, sorted, |found|, m, n);
    }
  }

  /** Every write takes a position above all others. */
  ghost predicate DistinctPositions(rows: Rows) {
    forall a, b :: a in rows && b in rows && a != b ==> rows[a].position != rows[b].position
  }

  lemma NewerIsOrder(rows: Rows, s: seq<(string, VectorRow)>)
    requires DistinctPositions(rows) && forall e :: e in s ==> e.0 in rows && rows[e.0] == e.1
    ensures Lists.IsOrderOn(Newer, s) && Lists.IsTotalOn(Newer, s)
  {
  }

  lemma EligibleRows(rows: Rows, scan: seq<(string, VectorRow)>, descriptor: Descriptor, within: Option<seq<string>>)
    requires IsScan(rows, scan)
    ensures var sorted := Lists.Sort(Newer, Lists.Filter(Eligible(descriptor, within), scan));
            forall e :: e in sorted ==> e.0 in rows && rows[e.0] == e.1 && Eligible(descriptor, within)(e)
  {
    var kept := Lists.Filter(Eligible(descriptor, within), scan);
    forall e | e in Lists.Sort(Newer, kept)
      ensures e.0 in rows && rows[e.0] == e.1 && Eligible(descriptor, within)(e)
    {
      Lists.SortHas(Newer, kept, e);
      Lists.FilterHas(Eligible(descriptor, within), scan, e);
    }
  }

  /**
   * The candidates are rows of this model inside the asked set, newest first. One
   * is left out only when the cap is reached, and then none that is kept is older.
   */
  lemma CandidatesAreNewest(rows: Rows, scan: seq<(string, VectorRow)>, descriptor: Descriptor, within: Option<seq<string>>, most: nat)
    requires IsScan(rows, scan)
    ensures var kept := Candidates(scan, descriptor, within, most);
            && (forall e :: e in kept ==> e.0 in rows && rows[e.0] == e.1 && Held(rows, descriptor, e.0)
                                          && (within.Some? ==> e.0 in within.value))
            && (forall i, j :: 0 <= i < j < |kept| ==> kept[i].1.position >= kept[j].1.position)
            && (forall id :: Held(rows, descriptor, id) && (within.Some? ==> id in within.value) && (id, rows[id]) !in kept ==>
                  |kept| == most && forall e :: e in kept ==> e.1.position >= rows[id].position)
  {
    var eligible := Lists.Filter(Eligible(descriptor, within), scan);
    var sorted := Lists.Sort(Newer, eligible);
    var kept := Candidates(scan, descriptor, within, most);
    EligibleRows(rows, scan, descriptor, within);
    assert Lists.IsOrderOn(Newer, eligible);
    Lists.SortSorts(Newer, eligible);
    forall i, j | 0 <= i < j < |kept|
      ensures kept[i].1.position >= kept[j].1.position
    {
      assert kept[i] == sorted[i] && kept[j] == sorted[j] && !Newer(sorted[j], sorted[i]);
    }
    forall id | Held(rows, descriptor, id) && (within.Some? ==> id in within.value) && (id, rows[id]) !in kept
      ensures |kept| == most && forall e :: e in kept ==> e.1.position >= rows[id].position
    {
      var left := (id, rows[id]);
      Lists.FilterHas(Eligible(descriptor, within), scan, left);
      Lists.SortHas(Newer, eligible, left);
      forall e | e in kept
        ensures e.1.position >= rows[id].position
      {
        Lists.BehindTheCut(Newer, sorted, |kept|, e, left);
      }
    }
  }

  /** Two scans of the same rows give the same candidates, in the same order. */
  lemma CandidatesIgnoreScan(rows: Rows, a: seq<(string, VectorRow)>, b: seq<(string, VectorRow)>, descriptor: Descriptor,
                             within: Option<seq<string>>, most: nat)
    requires IsScan(rows, a) && IsScan(rows, b) && DistinctPositions(rows)
    ensures Candidates(a, descriptor, within, most) == Candidates(b, descriptor, within, most)
  {
    var keep := Eligible(descriptor, within);
    var fa, fb := Lists.Filter(keep, a), Lists.Filter(keep, b);
    Lists.FilterSame(keep, a, b);
    EligibleRows(rows, a, descriptor, within);
    EligibleRows(rows, b, descriptor, within);
    Lists.SortPermutes(Newer, fa);
    Lists.SortPermutes(Newer, fb);
    forall e
      ensures e in fa <==> e in Lists.Sort(Newer, fa)
      ensures e in fb <==> e in Lists.Sort(Newer, fb)
    {
      Lists.SortHas(Newer, fa, e);
      Lists.SortHas(Newer, fb, e);
    }
    NewerIsOrder(rows, fa);
    NewerIsOrder(rows, fb);
    NewerIsOrder(rows, Lists.Sort(Newer, fa));
    Lists.SortSorts(Newer, fa);
    Lists.SortSorts(Newer, fb);
    Lists.OrderedIsUnique(Newer, Lists.Sort(Newer, fa), Lists.Sort(Newer, fb));
  }

  /** A search answers the same in whatever order the database visits its rows. */
  lemma FoundIgnoresScan(rows: Rows, a: seq<(string, VectorRow)>, b: seq<(string, VectorRow)>, descriptor: Descriptor,
                         within: Option<seq<string>>, most: nat, query: Vector, sqrt: real -> real, limit: int)
    requires IsScan(rows, a) && IsScan(rows, b) && DistinctPositions(rows)
    ensures Found(a, descriptor, within, most, query, sqrt, limit) == Found(b, descriptor, within, most, query, sqrt, limit)
  {
    CandidatesIgnoreScan(rows, a, b, descriptor, within, most);
  }

  lemma MatchIsRow(rows: Rows, scan: seq<(string, VectorRow)>, descriptor: Descriptor, within: Option<seq<string>>, most: nat,
                   query: Vector, sqrt: real -> real, m: Retrieval.Match)
    requires IsScan(rows, scan) && Cosine.IsSqrt(sqrt) && m in Compared(Candidates(scan, descriptor, within, most), query, sqrt)
    ensures Held(rows, descriptor, m.recordId) && (within.Some? ==> m.recordId in within.value)
    ensures |rows[m.recordId].vector| == |query|
    ensures m.score == Cosine.Similarity(query, rows[m.recordId].vector, sqrt) && -1.0 <= m.score <= 1.0
  {
    var candidates := Candidates(scan, descriptor, within, most);
    ComparedAre(candidates, query, sqrt, m);
    var e :| e in candidates && e.0 == m.recordId && |e.1.vector| == |query|
             && m.score == Cosine.Similarity(query, e.1.vector, sqrt);
    var kept := Lists.Filter(Eligible(descriptor, within), scan);
    assert e in Lists.Sort(Newer, kept);
    Lists.SortHas(Newer, kept, e);
    Lists.FilterHas(Eligible(descriptor, within), scan, e);
    Cosine.SimilarityRange(query, e.1.vector, sqrt);
  }

  /** What one embedding call answers to a text. */
  function AnswerTo(text: string, world: World): set<(string, Vector)> {
    if world.vectors.Ok? && world.vectors.value != [] then {(text, world.vectors.value[0])} else {}
  }

  /** The vector is one that the embedder answered to a text of this hash. */
  ghost predicate Answered(answers: set<(string, Vector)>, hashOf: string -> string, row: VectorRow) {
    exists text :: (text, row.vector) in answers && row.hash == hashOf(text)
  }

  /** Every row was in the file when it was opened, or is of this model and holds an answer of the embedder. */
  ghost predicate HonestRows(original: Rows, rows: Rows, descriptor: Descriptor, hashOf: string -> string, answers: set<(string, Vector)>) {
    forall id :: id in rows ==> FromFile(original, rows, id) || (Held(rows, descriptor, id) && Answered(answers, hashOf, rows[id]))
  }

  predicate FromFile(original: Rows, rows: Rows, id: string) {
    id in original && id in rows && rows[id] == original[id]
  }

  lemma StillHonest(original: Rows, rows: Rows, descriptor: Descriptor, hashOf: string -> string, answers: set<(string, Vector)>,
                    recordId: string, text: string, row: VectorRow)
    requires HonestRows(original, rows, descriptor, hashOf, answers) && row.descriptor == descriptor && row.hash == hashOf(text)
    ensures HonestRows(original, rows[recordId := row], descriptor, hashOf, answers + {(text, row.vector)})
  {
    var after, more := rows[recordId := row], answers + {(text, row.vector)};
    assert (text, row.vector) in more;
    forall id | id in after
      ensures FromFile(original, after, id) || (Held(after, descriptor, id) && Answered(more, hashOf, after[id]))
    {
      if id != recordId && Answered(answers, hashOf, rows[id]) {
        var t :| (t, rows[id].vector) in answers && rows[id].hash == hashOf(t);
        assert (t, rows[id].vector) in more;
      }
    }
  }

  /**
   * With a hash that tells texts apart, a current row that did not come with the
   * file holds a vector that the embedder answered to this very text.
   */
  lemma CurrentIsAnswered(original: Rows, rows: Rows, descriptor: Descriptor, hashOf: string -> string, answers: set<(string, Vector)>,
                          recordId: string, text: string)
    requires HonestRows(original, rows, descriptor, hashOf, answers) && forall a, b :: hashOf(a) == hashOf(b) ==> a == b
    requires IsCurrent(rows, descriptor, recordId, hashOf(text)) && !FromFile(original, rows, recordId)
    ensures (text, rows[recordId].vector) in answers
  {
    var t :| (t, rows[recordId].vector) in answers && rows[recordId].hash == hashOf(t);
  }

  /** Why an indexing that embeds fails, in the order of the checks. */
  function Obstacle(open: bool, text: string, world: World): Option<IndexError> {
    if !open then Some(Closed)
    else if Trim(text) == "" then Some(EmptyText)
    else if world.vectors.Err? then Some(world.vectors.error)
    else if world.vectors.value == [] then Some(NoVector)
    else if !world.stored then Some(StoreFailed)
    else None
  }

  class SqliteSemanticIndex {
    const descriptor: Descriptor
    const maxCandidates: nat
    const hashOf: string -> string
    const sqrt: real -> real
    var rows: Rows
    var open: bool
    ghost const original: Rows                    // the rows that the file had
    ghost var answers: set<(string, Vector)>    // every vector that the embedder returned, with its text

    /** Opens a file that may hold vectors already, of this model or of others. */
    constructor (descriptor: Descriptor, maxCandidates: nat, hashOf: string -> string, sqrt: real -> real, rows: Rows)
      ensures this.rows == rows && open && this.descriptor == descriptor && this.maxCandidates == maxCandidates
      ensures this.hashOf == hashOf && this.sqrt == sqrt && original == rows && answers == {} && Honest()
    {
      this.descriptor, this.maxCandidates, this.hashOf, this.sqrt := descriptor, maxCandidates, hashOf, sqrt;
      this.rows, this.open := rows, true;
      original, answers := rows, {};
    }

    ghost predicate Honest()
      reads this`rows, this`answers
    {
      HonestRows(original, rows, descriptor, hashOf, answers)
    }

    /**
     * Text that is already embedded costs nothing. Otherwise a vector is written
     * in one step, or nothing is: every failure leaves the table as it was.
     */
    method Index(recordId: string, text: string, world: World) returns (done: Completion<IndexError>)
      modifies this`rows, this`answers
      ensures done == Done ==> open && Trim(text) != "" && IsCurrent(rows, descriptor, recordId, hashOf(text))
      ensures done == Done ==> rows - {recordId} == old(rows) - {recordId}
      ensures done == Done && !old(IsCurrent(rows, descriptor, recordId, hashOf(text))) ==>
                (text, rows[recordId].vector) in AnswerTo(text, world)
                && forall id :: id in old(rows) ==> old(rows)[id].position < rows[recordId].position
      ensures done.Threw? ==> rows == old(rows)
      ensures old(IsCurrent(rows, descriptor, recordId, hashOf(text))) ==> rows == old(rows) && answers == old(answers)
      ensures old(answers) <= answers <= old(answers) + AnswerTo(text, world)
      ensures old(Honest()) ==> Honest()
      ensures done.Threw? ==> Obstacle(open, text, world) == Some(done.error)
      ensures old(DistinctPositions(rows)) ==> DistinctPositions(rows)
      ensures done == Done <==>
              (old(IsCurrent(rows, descriptor, recordId, hashOf(text))) && open && Trim(text) != "") || Obstacle(open, text, world).None?
    {
      if !open {
        return Threw(Closed);
      }
      if Trim(text) == "" {
        return Threw(EmptyText);
      }
      var hash := hashOf(text);
      if recordId in rows && rows[recordId].descriptor == descriptor && rows[recordId].hash == hash {
        return Done;
      }
      if world.vectors.Err? {
        return Threw(world.vectors.error);
      }
      if |world.vectors.value| == 0 {
        return Threw(NoVector);
      }
      answers := answers + AnswerTo(text, world);
      if !world.stored {
        return Threw(StoreFailed);
      }
      var position := NextPosition();
      var row := VectorRow(descriptor, hash, world.vectors.value[0], position);
      if old(Honest()) {
        StillHonest(original, rows, descriptor, hashOf, old(answers), recordId, text, row);
      }
      rows := rows[recordId := row];
      done := Done;
    }

    method NextPosition() returns (n: nat)
      ensures forall id :: id in rows ==> rows[id].position < n
    {
      var left := rows.Keys;
      n := 1;
      while left != {}
        invariant left <= rows.Keys
        invariant forall id :: id in rows && id !in left ==> rows[id].position < n
        decreases |left|
      {
        var id :| id in left;
        if rows[id].position >= n {
          n := rows[id].position + 1;
        }
        left := left - {id};
      }
    }

    method Remove(recordId: string) returns (done: Completion<IndexError>)
      modifies this`rows
      ensures done == if open then Done else Threw(Closed)
      ensures rows == if open then old(rows) - {recordId} else old(rows)
      ensures old(Honest()) ==> Honest()
      ensures old(DistinctPositions(rows)) ==> DistinctPositions(rows)
    {
      if !open {
        return Threw(Closed);
      }
      rows := rows - {recordId};
      done := Done;
    }

    method Contains(recordId: string) returns (r: Result<bool, IndexError>)
      ensures r == if open then Ok(Held(rows, descriptor, recordId)) else Err(Closed)
    {
      if !open {
        return Err(Closed);
      }
      r := Ok(recordId in rows && rows[recordId].descriptor == descriptor);
    }

    /** Nothing is embedded for a question that no row could answer. */
    method Search(text: string, limit: int, within: Option<seq<string>>, scan: seq<(string, VectorRow)>,
                  answer: Result<seq<Vector>, IndexError>) returns (r: Result<seq<Retrieval.Match>, IndexError>, embedded: bool)
      requires IsScan(rows, scan) && Cosine.IsSqrt(sqrt)
      ensures r.Err? <==> !open || (embedded && answer.Err?)
      ensures r.Err? ==> r.error == if open then answer.error else Closed
      ensures embedded <==> open && limit > 0 && Trim(text) != "" && within != Some([])
                            && Candidates(scan, descriptor, within, maxCandidates) != []
      ensures r.Ok? ==> r.value == if embedded && answer.value != []
                                   then Found(scan, descriptor, within, maxCandidates, answer.value[0], sqrt, limit) else []
    {
      embedded := false;
      if !open {
        return Err(Closed), false;
      }
      if limit <= 0 || Trim(text) == "" {
        return Ok([]), false;
      }
      if within.Some? && |within.value| == 0 {
        return Ok([]), false;
      }
      var candidates := Candidates(scan, descriptor, within, maxCandidates);
      if |candidates| == 0 {
        return Ok([]), false;
      }
      embedded := true;
      var vectors :- answer;
      if |vectors| == 0 {
        return Ok([]), true;
      }
      var matches := CompareAll(candidates, vectors[0]);
      var sorted := Lists.Sort(Better, matches);
      r := Ok(sorted[..Min(|sorted|, Max(0, limit))]);
    }

    method CompareAll(candidates: seq<(string, VectorRow)>, query: Vector) returns (matches: seq<Retrieval.Match>)
      requires Cosine.IsSqrt(sqrt)
      ensures matches == Compared(candidates, query, sqrt)
    {
      matches := [];
      for i := 0 to |candidates|
        invariant matches == Compared(candidates[..i], query, sqrt)
      {
        assert candidates[..i + 1][..i] == candidates[..i];
        if |candidates[i].1.vector| == |query| {
          var score := Cosine.CosineSimilarity(query, candidates[i].1.vector, sqrt);
          matches := matches + [Retrieval.Match(candidates[i].0, score.value)];
        }
      }
      assert candidates[..|candidates|] == candidates;
    }
  }
}
