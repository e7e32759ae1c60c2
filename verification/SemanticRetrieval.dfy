// `HybridRetriever` (src/memory/hybrid-retriever.ts) over the real index
// (src/memory/sqlite/sqlite-semantic-index.ts): what a semantic hit means.

module SemanticRetrieval {
  import opened Support
  import opened Text
  import opened Records
  import opened Sets
  import opened Ranking
  import opened Retrieval
  import Cosine
  import Lists
  import MemoryStore
  import Index = SemanticIndex

  type Entry = (string, Index.VectorRow)

  function Ids(records: seq<Record>): (r: seq<string>)
    ensures |r| == |records| && forall i :: 0 <= i < |r| ==> r[i] == records[i].recordId
  {
    seq(|records|, i requires 0 <= i < |records| => records[i].recordId)
  }

  /** One of the compared rows is the record's, has the dimension of the question, and this similarity to it. */
  ghost predicate HasSimilarity(compared: seq<Entry>, question: Index.Vector, sqrt: real -> real, id: string, score: real) {
    exists e :: e in compared && IsRowOf(e, question, sqrt, id, score)
  }

  predicate IsRowOf(e: Entry, question: Index.Vector, sqrt: real -> real, id: string, score: real) {
    e.0 == id && |e.1.vector| == |question| && score == Cosine.Similarity(question, e.1.vector, sqrt)
  }

  ghost predicate Close(compared: seq<Entry>, question: Index.Vector, sqrt: real -> real, threshold: real, id: string) {
    exists score :: HasSimilarity(compared, question, sqrt, id, score) && score >= threshold
  }

  // -------------------------------------------------------- what the search returns

  lemma OneRowEach(rows: Index.Rows, scan: seq<Entry>, descriptor: Index.Descriptor, within: Option<seq<string>>, most: nat)
    requires Index.IsScan(rows, scan)
    ensures var compared := Index.Candidates(scan, descriptor, within, most);
            && (forall i, j :: 0 <= i < j < |compared| ==> compared[i].0 != compared[j].0)
            && (forall e :: e in compared ==> e.0 in rows && rows[e.0] == e.1 && (within.Some? ==> e.0 in within.value))
  {
    var keep := Index.Eligible(descriptor, within);
    var kept := Lists.Filter(keep, scan);
    var sorted := Lists.Sort(Index.Newer, kept);
    Index.EligibleRows(rows, scan, descriptor, within);
    Lists.FilterDistinct(keep, scan);
    Lists.SortPermutes(Index.Newer, kept);
    forall i, j | 0 <= i < j < |sorted|
      ensures sorted[i].0 != sorted[j].0
    {
      Lists.DistinctOnce(kept, sorted[i]);
      Lists.DistinctPlaces(sorted, i, j);
      assert sorted[i] in sorted && sorted[j] in sorted;
    }
  }

  /** Asked for as many matches as there are ids, the search leaves no compared row out. */
  lemma NothingCut(rows: Index.Rows, scan: seq<Entry>, descriptor: Index.Descriptor, ids: seq<string>, most: nat,
                   question: Index.Vector, sqrt: real -> real)
    requires Index.IsScan(rows, scan)
    ensures var compared := Index.Candidates(scan, descriptor, Some(ids), most);
            Index.Found(scan, descriptor, Some(ids), most, question, sqrt, |ids|)
            == Lists.Sort(Index.Better, Index.Compared(compared, question, sqrt))
  {
    var compared := Index.Candidates(scan, descriptor, Some(ids), most);
    OneRowEach(rows, scan, descriptor, Some(ids), most);
    var names := seq(|compared|, i requires 0 <= i < |compared| => compared[i].0);
    forall x | x in names
      ensures x in ids
    {
      var i :| 0 <= i < |names| && names[i] == x;
      assert compared[i] in compared;
    }
    Lists.DistinctFits(names, ids);
    var all := Index.Compared(compared, question, sqrt);
    Lists.SortPermutes(Index.Better, all);
    assert Lists.Sort(Index.Better, all)[..|all|] == Lists.Sort(Index.Better, all);
  }

  lemma {:induction false} ScoredByMatch(matches: seq<Match>, id: string)
    requires id in ScoresOf(matches)
    ensures exists m :: m in matches && m == Match(id, ScoresOf(matches)[id])
  {
    var n := |matches| - 1;
    if matches[n].recordId == id {
      assert matches[n] in matches;
    } else {
      ScoredByMatch(matches[..n], id);
      var m :| m in matches[..n] && m == Match(id, ScoresOf(matches[..n])[id]);
      assert m in matches;
    }
  }

  /** The score of a record is the similarity of its own compared row, and only records with such a row have one. */
  lemma ScoreIsSimilarity(rows: Index.Rows, scan: seq<Entry>, descriptor: Index.Descriptor, ids: seq<string>, most: nat,
                          question: Index.Vector, sqrt: real -> real, id: string, score: real)
    requires Index.IsScan(rows, scan)
    ensures var compared := Index.Candidates(scan, descriptor, Some(ids), most);
            var scores := ScoresOf(Index.Found(scan, descriptor, Some(ids), most, question, sqrt, |ids|));
            HasSimilarity(compared, question, sqrt, id, score) <==> id in scores && scores[id] == score
  {
    var compared := Index.Candidates(scan, descriptor, Some(ids), most);
    var all := Index.Compared(compared, question, sqrt);
    var found := Index.Found(scan, descriptor, Some(ids), most, question, sqrt, |ids|);
    NothingCut(rows, scan, descriptor, ids, most, question, sqrt);
    MatchIffRow(compared, question, sqrt, id, score);
    Lists.SortHas(Index.Better, all, Match(id, score));
    ScoredIsMatched(found, id);
    if HasSimilarity(compared, question, sqrt, id, score) {
      var k :| 0 <= k < |found| && found[k] == Match(id, score);
      assert found[k].recordId == id;
    }
    if id in ScoresOf(found) {
      ScoredByMatch(found, id);
      var own := ScoresOf(found)[id];
      MatchIffRow(compared, question, sqrt, id, own);
      Lists.SortHas(Index.Better, all, Match(id, own));
      OneRowEach(rows, scan, descriptor, Some(ids), most);
      if HasSimilarity(compared, question, sqrt, id, score) {
        OneSimilarity(compared, question, sqrt, id, score, own);
      }
    }
  }

  lemma MatchIffRow(compared: seq<Entry>, question: Index.Vector, sqrt: real -> real, id: string, score: real)
    ensures Match(id, score) in Index.Compared(compared, question, sqrt) <==> HasSimilarity(compared, question, sqrt, id, score)
  {
    Index.ComparedAre(compared, question, sqrt, Match(id, score));
    if HasSimilarity(compared, question, sqrt, id, score) {
      var e :| e in compared && IsRowOf(e, question, sqrt, id, score);
      assert e.0 == Match(id, score).recordId;
    }
    if e :| e in compared && e.0 == id && |e.1.vector| == |question| && score == Cosine.Similarity(question, e.1.vector, sqrt) {
      assert IsRowOf(e, question, sqrt, id, score);
    }
  }

  lemma OneSimilarity(compared: seq<Entry>, question: Index.Vector, sqrt: real -> real, id: string, a: real, b: real)
    requires forall i, j :: 0 <= i < j < |compared| ==> compared[i].0 != compared[j].0
    requires HasSimilarity(compared, question, sqrt, id, a) && HasSimilarity(compared, question, sqrt, id, b)
    ensures a == b
  {
    var e :| e in compared && IsRowOf(e, question, sqrt, id, a);
    var f :| f in compared && IsRowOf(f, question, sqrt, id, b);
    var i :| 0 <= i < |compared| && compared[i] == e;
    var j :| 0 <= j < |compared| && compared[j] == f;
  }

  // --------------------------------------------------------- who goes unmentioned

  ghost predicate Listed(record: Record, hits: seq<RankedHit>, dropped: seq<Drop>) {
    || (exists k :: 0 <= k < |hits| && hits[k].hit.record == record)
    || (exists k :: 0 <= k < |dropped| && dropped[k].recordId == record.recordId)
  }

  lemma PickedIsHit(sorted: seq<Hit>, p: seq<int>, capped: nat, diversity: bool, hits: seq<RankedHit>, i: nat)
    requires HitsAt(sorted, p, capped, diversity, hits) && i < |sorted| && i in p
    ensures exists k :: 0 <= k < |hits| && hits[k].hit.record == sorted[i].record
  {
    var k :| 0 <= k < |p| && p[k] == i;
    assert hits[k].hit == sorted[i];
  }

  lemma PassedIsDrop(sorted: seq<Hit>, p: seq<int>, capped: nat, diversity: bool, dropped: seq<Drop>, i: nat)
    requires DropsAt(sorted, p, capped, diversity, dropped) && i < |sorted| && i in p
    ensures exists k :: 0 <= k < |dropped| && dropped[k].recordId == sorted[i].record.recordId
  {
    var k :| 0 <= k < |p| && p[k] == i;
    assert dropped[k].recordId == sorted[i].record.recordId;
  }

  lemma RankedIsListed(sorted: seq<Hit>, picks: set<int>, limit: int, diversity: bool, hits: seq<RankedHit>, dropped: seq<Drop>, i: nat)
    requires Ranked(sorted, picks, limit, diversity, hits, dropped) && i < |sorted|
    ensures Listed(sorted[i].record, hits, dropped)
  {
    var n := |sorted|;
    if i in picks {
      PositionsAre(picks, n);
      PickedIsHit(sorted, Positions(picks, n), Max(0, limit), diversity, hits, i);
    } else {
      PositionsAre(UpTo(n) - picks, n);
      PassedIsDrop(sorted, Positions(UpTo(n) - picks, n), Max(0, limit), diversity, dropped, i);
    }
  }

  /** Every candidate with a common term or a similarity that reaches the threshold is a hit or a drop. */
  lemma AdmittedIsListed(h: HybridRetriever, terms: set<string>, semantic: Semantics, candidates: seq<Record>, limit: int,
                         r: RetrievalResult, record: Record)
    requires h.Retrieved(terms, semantic, candidates, limit, r) && record in candidates
    requires var similarity := SimilarityOf(semantic.scores, record);
             || Coverage(terms, h.lexicalTerms(h.searchableText(record))) > 0.0
             || (similarity.Some? && similarity.value >= h.semanticThreshold)
    ensures Listed(record, r.hits, r.dropped)
  {
    var matches := h.Matches(terms, semantic, candidates);
    var picks :| Ranked(Sort(matches), picks, limit, h.kindDiversity, r.hits, r.dropped);
    MatchesAre(h, terms, semantic, candidates);
    SortPermutes(matches);
    assert h.HitOf(terms, semantic, record) in Sort(matches);
    var i :| 0 <= i < |Sort(matches)| && Sort(matches)[i] == h.HitOf(terms, semantic, record);
    RankedIsListed(Sort(matches), picks, limit, h.kindDiversity, r.hits, r.dropped, i);
  }

  // ------------------------------------------------------------------- a retrieval

  /**
   * The result of a retrieval whose question was embedded: a hit claims the
   * semantic signal, and is scored for it, exactly when its record's own vector is
   * close to the question; no candidate with a close vector goes unmentioned, and
   * of two such with the same share of the terms the closer ranks first.
   */
  ghost predicate SemanticsAreReal(h: HybridRetriever, compared: seq<Entry>, question: Index.Vector, sqrt: real -> real,
                                   terms: set<string>, candidates: seq<Record>, r: RetrievalResult)
  {
    && (forall k :: 0 <= k < |r.hits| ==>
          && r.hits[k].hit.record in candidates
          && (Semantic in r.hits[k].hit.matchedBy <==>
                Close(compared, question, sqrt, h.semanticThreshold, r.hits[k].hit.record.recordId))
          && ScoreIsReal(h, compared, question, sqrt, terms, r.hits[k].hit.record, r.hits[k].hit.score))
    && (forall x :: x in candidates && Close(compared, question, sqrt, h.semanticThreshold, x.recordId) ==>
          Listed(x, r.hits, r.dropped))
    && (forall x, y :: x in candidates && y in candidates ==> CloserFirst(h, compared, question, sqrt, terms, x, y, r))
  }

  /** The weighted share of the terms, and the weighted similarity of the record's own vector if that is close. */
  ghost predicate ScoreIsReal(h: HybridRetriever, compared: seq<Entry>, question: Index.Vector, sqrt: real -> real,
                              terms: set<string>, record: Record, score: real)
  {
    var share := h.keywordWeight * Coverage(terms, h.lexicalTerms(h.searchableText(record)));
    if !Close(compared, question, sqrt, h.semanticThreshold, record.recordId) then score == share
    else exists similarity :: HasSimilarity(compared, question, sqrt, record.recordId, similarity)
                              && similarity >= h.semanticThreshold && score == share + h.semanticWeight * similarity
  }

  ghost predicate CloserFirst(h: HybridRetriever, compared: seq<Entry>, question: Index.Vector, sqrt: real -> real,
                              terms: set<string>, x: Record, y: Record, r: RetrievalResult)
  {
    forall a, b, i, j ::
      HasSimilarity(compared, question, sqrt, x.recordId, a) && HasSimilarity(compared, question, sqrt, y.recordId, b)
      && a > b >= h.semanticThreshold && h.semanticWeight > 0.0
      && Coverage(terms, h.lexicalTerms(h.searchableText(x))) == Coverage(terms, h.lexicalTerms(h.searchableText(y)))
      && HasRank(r, x, i) && HasRank(r, y, j)
      ==> i < j
  }

  /** The search among the candidates, and what it scores. */
  ghost function ScoresAmong(scan: seq<Entry>, descriptor: Index.Descriptor, candidates: seq<Record>, most: nat,
                             question: Index.Vector, sqrt: real -> real): map<string, real>
  {
    ScoresOf(Index.Found(scan, descriptor, Some(Ids(candidates)), most, question, sqrt, |candidates|))
  }

  lemma CloseIffScored(h: HybridRetriever, rows: Index.Rows, scan: seq<Entry>, descriptor: Index.Descriptor, most: nat,
                       question: Index.Vector, sqrt: real -> real, candidates: seq<Record>, record: Record)
    requires Index.IsScan(rows, scan)
    ensures var compared := Index.Candidates(scan, descriptor, Some(Ids(candidates)), most);
            var similarity := SimilarityOf(ScoresAmong(scan, descriptor, candidates, most, question, sqrt), record);
            && (forall a :: HasSimilarity(compared, question, sqrt, record.recordId, a) <==> similarity == Some(a))
            && (similarity.Some? && similarity.value >= h.semanticThreshold <==>
                  Close(compared, question, sqrt, h.semanticThreshold, record.recordId))
  {
    var compared := Index.Candidates(scan, descriptor, Some(Ids(candidates)), most);
    forall a
      ensures HasSimilarity(compared, question, sqrt, record.recordId, a) <==>
              SimilarityOf(ScoresAmong(scan, descriptor, candidates, most, question, sqrt), record) == Some(a)
    {
      ScoreIsSimilarity(rows, scan, descriptor, Ids(candidates), most, question, sqrt, record.recordId, a);
    }
  }

  lemma HitIsReal(h: HybridRetriever, rows: Index.Rows, scan: seq<Entry>, descriptor: Index.Descriptor, most: nat,
                  question: Index.Vector, sqrt: real -> real, terms: set<string>, candidates: seq<Record>,
                  semantic: Semantics, limit: int, r: RetrievalResult, k: nat)
    requires Index.IsScan(rows, scan) && DistinctIds(candidates)
    requires semantic.scores == ScoresAmong(scan, descriptor, candidates, most, question, sqrt)
    requires h.Retrieved(terms, semantic, candidates, limit, r) && k < |r.hits|
    ensures var compared := Index.Candidates(scan, descriptor, Some(Ids(candidates)), most);
            var hit := r.hits[k].hit;
            && hit.record in candidates
            && (Semantic in hit.matchedBy <==> Close(compared, question, sqrt, h.semanticThreshold, hit.record.recordId))
            && ScoreIsReal(h, compared, question, sqrt, terms, hit.record, hit.score)
  {
    HitsAreAdmitted(h, terms, semantic, candidates, limit, r, k);
    CloseIffScored(h, rows, scan, descriptor, most, question, sqrt, candidates, r.hits[k].hit.record);
  }

  lemma RanksAreReal(h: HybridRetriever, rows: Index.Rows, scan: seq<Entry>, descriptor: Index.Descriptor, most: nat,
                     question: Index.Vector, sqrt: real -> real, terms: set<string>, candidates: seq<Record>,
                     semantic: Semantics, limit: int, r: RetrievalResult, x: Record, y: Record)
    requires Index.IsScan(rows, scan) && DistinctIds(candidates) && x in candidates && y in candidates
    requires semantic.scores == ScoresAmong(scan, descriptor, candidates, most, question, sqrt)
    requires h.Retrieved(terms, semantic, candidates, limit, r)
    ensures CloserFirst(h, Index.Candidates(scan, descriptor, Some(Ids(candidates)), most), question, sqrt, terms, x, y, r)
  {
    var compared := Index.Candidates(scan, descriptor, Some(Ids(candidates)), most);
    CloseIffScored(h, rows, scan, descriptor, most, question, sqrt, candidates, x);
    CloseIffScored(h, rows, scan, descriptor, most, question, sqrt, candidates, y);
    forall a, b, i, j |
      && HasSimilarity(compared, question, sqrt, x.recordId, a) && HasSimilarity(compared, question, sqrt, y.recordId, b)
      && a > b >= h.semanticThreshold && h.semanticWeight > 0.0
      && Coverage(terms, h.lexicalTerms(h.searchableText(x))) == Coverage(terms, h.lexicalTerms(h.searchableText(y)))
      && HasRank(r, x, i) && HasRank(r, y, j)
      ensures i < j
    {
      CloserRanksFirst(h, terms, semantic, candidates, limit, r, x, y, i, j);
    }
  }

  lemma RetrievedIsReal(h: HybridRetriever, rows: Index.Rows, scan: seq<Entry>, descriptor: Index.Descriptor, most: nat,
                        question: Index.Vector, sqrt: real -> real, terms: set<string>, candidates: seq<Record>,
                        found: seq<Match>, limit: int, r: RetrievalResult)
    requires Index.IsScan(rows, scan) && DistinctIds(candidates)
    requires found == Index.Found(scan, descriptor, Some(Ids(candidates)), most, question, sqrt, |candidates|)
    requires h.Retrieved(terms, SemanticsOf(candidates, Some(Ok(found))), candidates, limit, r)
    ensures SemanticsAreReal(h, Index.Candidates(scan, descriptor, Some(Ids(candidates)), most), question, sqrt, terms, candidates, r)
  {
    var semantic := SemanticsOf(candidates, Some(Ok(found)));
    var compared := Index.Candidates(scan, descriptor, Some(Ids(candidates)), most);
    if candidates == [] {
      NoCandidates(h, terms, semantic, limit, r);
      return;
    }
    forall k | 0 <= k < |r.hits|
      ensures r.hits[k].hit.record in candidates
      ensures Semantic in r.hits[k].hit.matchedBy <==>
              Close(compared, question, sqrt, h.semanticThreshold, r.hits[k].hit.record.recordId)
      ensures ScoreIsReal(h, compared, question, sqrt, terms, r.hits[k].hit.record, r.hits[k].hit.score)
    {
      HitIsReal(h, rows, scan, descriptor, most, question, sqrt, terms, candidates, semantic, limit, r, k);
    }
    forall x | x in candidates && Close(compared, question, sqrt, h.semanticThreshold, x.recordId)
      ensures Listed(x, r.hits, r.dropped)
    {
      CloseIffScored(h, rows, scan, descriptor, most, question, sqrt, candidates, x);
      AdmittedIsListed(h, terms, semantic, candidates, limit, r, x);
    }
    forall x, y | x in candidates && y in candidates
      ensures CloserFirst(h, compared, question, sqrt, terms, x, y, r)
    {
      RanksAreReal(h, rows, scan, descriptor, most, question, sqrt, terms, candidates, semantic, limit, r, x, y);
    }
  }

  lemma NoCandidates(h: HybridRetriever, terms: set<string>, semantic: Semantics, limit: int, r: RetrievalResult)
    requires h.Retrieved(terms, semantic, [], limit, r)
    ensures r.hits == []
  {
    CandidatesConserved(h, terms, semantic, [], limit, r);
  }

  /**
   * `retrieve` with its own index. `answer` is how the embedding of the question
   * ends; a search that fails degrades the retrieval and nothing else.
   */
  method Retrieve(h: HybridRetriever, index: Index.SqliteSemanticIndex, describe: Index.IndexError -> string,
                  query: RetrievalQuery, scan: seq<string>, rowScan: seq<Entry>,
                  answer: Result<seq<Index.Vector>, Index.IndexError>)
    returns (r: Result<RetrievalResult, MemoryStore.StoreError>)
    requires h.store.Valid() && MemoryStore.IsScan(h.store.rows, scan)
    requires Index.IsScan(index.rows, rowScan) && Cosine.IsSqrt(index.sqrt)
    ensures r.Err? <==> Trim(query.text) != [] && !h.store.open
    ensures r.Ok? ==>
              var candidates := h.Candidates(h.store.log, query);
              var compared := Index.Candidates(rowScan, index.descriptor, Some(Ids(candidates)), index.maxCandidates);
              && r.value.degraded == (if candidates == [] then None
                                      else if !index.open then Some(describe(Index.Closed))
                                      else if compared != [] && answer.Err? then Some(describe(answer.error))
                                      else None)
              && (index.open && answer.Ok? && answer.value != [] ==>
                    SemanticsAreReal(h, compared, answer.value[0], index.sqrt, h.lexicalTerms(query.text), candidates, r.value))
  {
    var candidates: seq<Record> := [];
    if Trim(query.text) != [] {
      candidates :- h.store.Select(MetadataQuery(query, h.maxCandidates), scan);
      MemoryStore.AnswerIsDistinct(h.store.log, MetadataQuery(query, h.maxCandidates));
    }
    var search: Option<Result<seq<Match>, string>> := None;
    if candidates != [] {
      var found := Search(index, query.text, candidates, describe, rowScan, answer);
      search := Some(found);
    }
    var ranked := h.RankCandidates(query, candidates, search);
    r := Ok(ranked);
    if index.open && answer.Ok? && answer.value != [] {
      RetrievedIsReal(h, index.rows, rowScan, index.descriptor, index.maxCandidates, answer.value[0], index.sqrt,
                      h.lexicalTerms(query.text), candidates,
                      if candidates == [] then [] else search.value.value, query.limit, ranked);
    }
  }

  /** The search among the candidates, its error as the message that is reported. */
  method Search(index: Index.SqliteSemanticIndex, text: string, candidates: seq<Record>, describe: Index.IndexError -> string,
                rowScan: seq<Entry>, answer: Result<seq<Index.Vector>, Index.IndexError>)
    returns (r: Result<seq<Match>, string>)
    requires Index.IsScan(index.rows, rowScan) && Cosine.IsSqrt(index.sqrt)
    requires candidates != [] && Trim(text) != []
    ensures var compared := Index.Candidates(rowScan, index.descriptor, Some(Ids(candidates)), index.maxCandidates);
            && (!index.open ==> r == Err(describe(Index.Closed)))
            && (index.open && compared != [] && answer.Err? ==> r == Err(describe(answer.error)))
            && (index.open && (compared == [] || answer.Ok?) ==> r.Ok?)
            && (index.open && answer.Ok? && answer.value != [] ==>
                  r == Ok(Index.Found(rowScan, index.descriptor, Some(Ids(candidates)), index.maxCandidates, answer.value[0],
                                      index.sqrt, |candidates|)))
  {
    var found, embedded := index.Search(text, |candidates|, Some(Ids(candidates)), rowScan, answer);
    if found.Err? {
      return Err(describe(found.error));
    }
    r := Ok(found.value);
  }
}
