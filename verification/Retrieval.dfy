// The two retrievers, src/memory/hybrid-retriever.ts and
// src/memory/lexical-retriever.ts. The set of terms of a text and the text of a
// record are parameters; so is the answer of the index.

module Retrieval {
  import opened Support
  import opened Text
  import opened Records
  import opened Sets
  import opened Ranking
  import Lists
  import MemoryStore

  datatype Match = Match(recordId: string, score: real)

  datatype RetrievalQuery = RetrievalQuery(text: string, kinds: seq<Kind>, tags: Option<seq<string>>, limit: int)

  datatype RetrievalResult = RetrievalResult(
    hits: seq<RankedHit>,
    dropped: seq<Drop>,
    signalsUsed: seq<Signal>,
    degraded: Option<string>,
    candidateCount: nat,
    unmatchedCount: nat)

  datatype Semantics = Semantics(ran: bool, scores: map<string, real>, degradation: Option<string>)

  // ----------------------------------------------------------------- coverage

  function Common(terms: set<string>, words: set<string>): nat {
    |terms * words|
  }

  /** The share of the terms that occur among the words. */
  function Coverage(terms: set<string>, words: set<string>): real {
    if terms == {} then 0.0 else Common(terms, words) as real / |terms| as real
  }

  /** Coverage lies between none and all, and reaches each end exactly when it should. */
  lemma CoverageRange(terms: set<string>, words: set<string>)
    ensures 0.0 <= Coverage(terms, words) <= 1.0
    ensures Coverage(terms, words) > 0.0 <==> exists t :: t in terms && t in words
    ensures Coverage(terms, words) == 1.0 <==> terms != {} && terms <= words
  {
    var both := terms * words;
    if terms != {} {
      assert terms == both + (terms - both);
      assert |terms| == |both| + |terms - both|;
      QuotientRange(|both|, |terms|);
      if both != {} {
        var t :| t in both;
        assert t in terms && t in words;
      }
      if both == terms {
        assert terms <= words;
      } else {
        assert terms - both != {};
      }
    }
  }

  lemma QuotientRange(n: nat, d: nat)
    requires n <= d && d > 0
    ensures 0.0 <= n as real / d as real <= 1.0
    ensures n as real / d as real > 0.0 <==> n > 0
    ensures n as real / d as real == 1.0 <==> n == d
  {
  }

  lemma CountOne(terms: set<string>, left: set<string>, term: string, words: set<string>)
    requires term in left && left <= terms
    ensures |(terms - (left - {term})) * words| == |(terms - left) * words| + if term in words then 1 else 0
  {
    assert (terms - (left - {term})) * words == (terms - left) * words + if term in words then {term} else {};
  }

  /** Counting the terms one by one, as both retrievers do. */
  method CountCommon(terms: set<string>, words: set<string>) returns (n: nat)
    ensures n == Common(terms, words)
  {
    n := 0;
    var left := terms;
    while left != {}
      invariant left <= terms && n == |(terms - left) * words|
      decreases |left|
    {
      var term :| term in left;
      CountOne(terms, left, term, words);
      if term in words {
        n := n + 1;
      }
      left := left - {term};
    }
    assert (terms - left) * words == terms * words;
  }

  // ------------------------------------------------------------------ candidates

  /** What the metadata filter is asked for. */
  function MetadataQuery(query: RetrievalQuery, maxCandidates: nat): MemoryStore.Query {
    MemoryStore.Query(Some(query.kinds), None, None, query.tags, None, Some(maxCandidates))
  }

  /**
   * The candidates of a retrieval: stored records of the wanted kinds with all
   * the tags, no more than allowed, none twice, and none left out for a later one.
   */
  lemma CandidatesAre(log: MemoryStore.Log, query: RetrievalQuery, maxCandidates: nat)
    requires DistinctIds(log)
    ensures var candidates := MemoryStore.Answer(log, MetadataQuery(query, maxCandidates));
            && DistinctIds(candidates) && |candidates| <= maxCandidates
            && (forall x :: x in candidates ==> x in log && Wanted(query, x))
            && (forall x, y :: x in candidates && y in log && Wanted(query, y) && y !in candidates ==>
                  !Less(y.createdAt, x.createdAt))
            && (forall y :: y in log && Wanted(query, y) && |candidates| < maxCandidates ==> y in candidates)
  {
    var asked := MetadataQuery(query, maxCandidates);
    var candidates := MemoryStore.Answer(log, asked);
    var all := Lists.Sort(MemoryStore.Earlier, Lists.Filter(MemoryStore.Meeting(asked), log));
    MemoryStore.AnswerIsDistinct(log, asked);
    MemoryStore.AnswerIsTheEarliest(log, asked);
    forall x
      ensures x in all <==> x in log && Wanted(query, x)
    {
      assert MemoryStore.Meets(asked, x) <==> Wanted(query, x);
    }
    forall x | x in candidates
      ensures x in all
    {
    }
  }

  predicate Wanted(query: RetrievalQuery, record: Record) {
    record.kind in query.kinds && (query.tags.Some? ==> forall t :: t in query.tags.value ==> t in record.tags)
  }

  // -------------------------------------------------------------------- hybrid

  class HybridRetriever {
    const store: MemoryStore.SqliteMemoryStore
    const maxCandidates: nat
    const semanticThreshold: real
    const keywordWeight: real
    const semanticWeight: real
    const kindDiversity: bool
    const lexicalTerms: string -> set<string>
    const searchableText: Record -> string

    constructor (store: MemoryStore.SqliteMemoryStore, maxCandidates: nat, semanticThreshold: real, keywordWeight: real,
                 semanticWeight: real, kindDiversity: bool, lexicalTerms: string -> set<string>, searchableText: Record -> string)
      ensures this.store == store && this.maxCandidates == maxCandidates && this.semanticThreshold == semanticThreshold
      ensures this.keywordWeight == keywordWeight && this.semanticWeight == semanticWeight
      ensures this.kindDiversity == kindDiversity
      ensures this.lexicalTerms == lexicalTerms && this.searchableText == searchableText
    {
      this.store, this.maxCandidates, this.semanticThreshold := store, maxCandidates, semanticThreshold;
      this.keywordWeight, this.semanticWeight, this.kindDiversity := keywordWeight, semanticWeight, kindDiversity;
      this.lexicalTerms, this.searchableText := lexicalTerms, searchableText;
    }

    function Keyword(terms: set<string>, record: Record): real {
      Coverage(terms, lexicalTerms(searchableText(record)))
    }

    predicate SemanticHit(scores: map<string, real>, record: Record) {
      record.recordId in scores && scores[record.recordId] >= semanticThreshold
    }

    /** A common term, or a similarity that reaches the threshold. */
    predicate Admitted(terms: set<string>, semantic: Semantics, record: Record) {
      Keyword(terms, record) > 0.0 || SemanticHit(semantic.scores, record)
    }

    /** The hit of an admitted candidate: its weighted score and the signals behind it. */
    function HitOf(terms: set<string>, semantic: Semantics, record: Record): Hit {
      var keyword, admitted := Keyword(terms, record), SemanticHit(semantic.scores, record);
      var cosine := if record.recordId in semantic.scores then Some(semantic.scores[record.recordId]) else None;
      var combined := keywordWeight * keyword + if admitted then semanticWeight * cosine.value else 0.0;
      Hit(record, combined,
          [Metadata] + (if keyword > 0.0 then [Signal.Keyword] else []) + (if admitted then [Semantic] else []),
          Breakdown(keyword, cosine, admitted, if semantic.ran then Some(semanticThreshold) else None,
                    keywordWeight, semanticWeight, combined))
    }

    function Matches(terms: set<string>, semantic: Semantics, candidates: seq<Record>): (hits: seq<Hit>)
      ensures |hits| <= |candidates|
    {
      if candidates == [] then []
      else
        var before, record := Matches(terms, semantic, candidates[..|candidates| - 1]), candidates[|candidates| - 1];
        if Admitted(terms, semantic, record) then before + [HitOf(terms, semantic, record)] else before
    }

    /** What a retrieval over `candidates` must return. */
    ghost predicate Retrieved(terms: set<string>, semantic: Semantics, candidates: seq<Record>, limit: int, r: RetrievalResult) {
      && r.candidateCount == |candidates|
      && r.unmatchedCount == |candidates| - |Matches(terms, semantic, candidates)|
      && r.degraded == semantic.degradation
      && r.signalsUsed == [Metadata, Signal.Keyword] + (if semantic.ran then [Semantic] else [])
      && exists picks :: Ranked(Sort(Matches(terms, semantic, candidates)), picks, limit, kindDiversity, r.hits, r.dropped)
    }

    method KeywordCoverage(terms: set<string>, record: Record) returns (r: real)
      ensures r == Keyword(terms, record)
    {
      if terms == {} {
        return 0.0;
      }
      var n := CountCommon(terms, lexicalTerms(searchableText(record)));
      r := n as real / |terms| as real;
    }

    /** One turn of the first loop of `retrieve`: no hit without a positive signal. */
    method Consider(terms: set<string>, semantic: Semantics, record: Record) returns (hit: Option<Hit>)
      ensures hit == if Admitted(terms, semantic, record) then Some(HitOf(terms, semantic, record)) else None
    {
      var keyword := KeywordCoverage(terms, record);
      var cosine := if record.recordId in semantic.scores then Some(semantic.scores[record.recordId]) else None;
      var semanticHit := cosine.Some? && cosine.value >= semanticThreshold;
      if keyword <= 0.0 && !semanticHit {
        return None;
      }
      var matchedBy := [Metadata];
      if keyword > 0.0 {
        matchedBy := matchedBy + [Signal.Keyword];
      }
      if semanticHit {
        matchedBy := matchedBy + [Semantic];
      }
      assert matchedBy == [Metadata] + (if keyword > 0.0 then [Signal.Keyword] else []) + (if semanticHit then [Semantic] else []);
      var combined := keywordWeight * keyword + if semanticHit then semanticWeight * cosine.value else 0.0;
      assert Admitted(terms, semantic, record);
      assert matchedBy == HitOf(terms, semantic, record).matchedBy;
      assert combined == HitOf(terms, semantic, record).score;
      assert cosine == HitOf(terms, semantic, record).breakdown.semantic;
      hit := Some(Hit(record, combined, matchedBy,
                      Breakdown(keyword, cosine, semanticHit, if semantic.ran then Some(semanticThreshold) else None,
                                keywordWeight, semanticWeight, combined)));
    }

    /** The first loop of `retrieve`: score the candidates, count the unmatched. */
    method Collect(terms: set<string>, semantic: Semantics, candidates: seq<Record>) returns (hits: seq<Hit>, unmatched: nat)
      ensures hits == Matches(terms, semantic, candidates) && unmatched == |candidates| - |hits|
    {
      hits, unmatched := [], 0;
      for i := 0 to |candidates|
        invariant hits == Matches(terms, semantic, candidates[..i]) && unmatched == i - |hits|
      {
        assert candidates[..i + 1][..i] == candidates[..i];
        var hit := Consider(terms, semantic, candidates[i]);
        if hit.None? {
          unmatched := unmatched + 1;
        } else {
          hits := hits + [hit.value];
        }
      }
      assert candidates[..|candidates|] == candidates;
    }

    /**
     * `search` is the index's answer; without an index there is none. A failed
     * search leaves no scores and says why; one that ran scores exactly the
     * matched records, each with its last match.
     */
    method SemanticScores(candidates: seq<Record>, search: Option<Result<seq<Match>, string>>) returns (s: Semantics)
      ensures s == SemanticsOf(candidates, search)
      ensures s.ran <==> candidates != [] && search.Some? && search.value.Ok?
      ensures s.ran ==> s.degradation.None? && LastScores(search.value.value, s.scores)
      ensures !s.ran ==> s.scores == map[]
      ensures s.degradation == if candidates != [] && search.Some? && search.value.Err? then Some(search.value.error) else None
    {
      if search.None? || candidates == [] {
        return Semantics(false, map[], None);
      }
      match search.value
      case Err(reason) =>
        s := Semantics(false, map[], Some(reason));
      case Ok(matches) =>
        var scores := CollectScores(matches);
        s := Semantics(true, scores, None);
    }

    method CollectScores(matches: seq<Match>) returns (scores: map<string, real>)
      ensures scores == ScoresOf(matches) && LastScores(matches, scores)
    {
      scores := map[];
      for i := 0 to |matches|
        invariant scores == ScoresOf(matches[..i])
      {
        assert matches[..i + 1][..i] == matches[..i];
        scores := scores[matches[i].recordId := matches[i].score];
      }
      assert matches[..|matches|] == matches;
      ScoresAreLast(matches);
    }

    /** Nothing is asked of the store for a blank text. */
    function Candidates(log: MemoryStore.Log, query: RetrievalQuery): (r: seq<Record>) {
      if Trim(query.text) == [] then [] else MemoryStore.Answer(log, MetadataQuery(query, maxCandidates))
    }

    method Retrieve(query: RetrievalQuery, scan: seq<string>, search: Option<Result<seq<Match>, string>>)
      returns (r: Result<RetrievalResult, MemoryStore.StoreError>)
      requires store.Valid() && MemoryStore.IsScan(store.rows, scan)
      ensures r.Err? <==> Trim(query.text) != [] && !store.open
      ensures r.Ok? ==>
                var candidates := Candidates(store.log, query);
                Retrieved(lexicalTerms(query.text), SemanticsOf(candidates, search), candidates, query.limit, r.value)
    {
      var candidates: seq<Record> := [];
      if Trim(query.text) != [] {
        candidates :- store.Select(MetadataQuery(query, maxCandidates), scan);
        MemoryStore.AnswerIsDistinct(store.log, MetadataQuery(query, maxCandidates));
      }
      var ranked := RankCandidates(query, candidates, search);
      r := Ok(ranked);
    }

    /** Everything after the candidates are known. */
    method RankCandidates(query: RetrievalQuery, candidates: seq<Record>, search: Option<Result<seq<Match>, string>>)
      returns (r: RetrievalResult)
      requires DistinctIds(candidates)
      ensures Retrieved(lexicalTerms(query.text), SemanticsOf(candidates, search), candidates, query.limit, r)
    {
      var semantic := SemanticScores(candidates, search);
      var signalsUsed := [Metadata, Signal.Keyword];
      if semantic.ran {
        signalsUsed := signalsUsed + [Semantic];
      }
      var terms := lexicalTerms(query.text);
      var hits, unmatched := Collect(terms, semantic, candidates);
      MatchesDistinct(this, terms, semantic, candidates);
      SortSorts(hits);
      var ranked, dropped := RankHits(Sort(hits), Max(0, query.limit), kindDiversity);
      r := RetrievalResult(ranked, dropped, signalsUsed, semantic.degradation, |candidates|, unmatched);
      ghost var picks :| Ranked(Sort(hits), picks, Max(0, query.limit), kindDiversity, ranked, dropped);
      assert Ranked(Sort(hits), picks, query.limit, kindDiversity, r.hits, r.dropped);
    }
  }

  function ScoresOf(matches: seq<Match>): map<string, real> {
    if matches == [] then map[]
    else ScoresOf(matches[..|matches| - 1])[matches[|matches| - 1].recordId := matches[|matches| - 1].score]
  }

  ghost predicate IsLast(matches: seq<Match>, i: int)
    requires 0 <= i < |matches|
  {
    forall j :: i < j < |matches| ==> matches[j].recordId != matches[i].recordId
  }

  /** The scores are those of the matched records, each with the last match for its id. */
  ghost predicate LastScores(matches: seq<Match>, scores: map<string, real>) {
    && (forall id :: id in scores <==> Matched(matches, id))
    && (forall i :: 0 <= i < |matches| && IsLast(matches, i) ==>
          matches[i].recordId in scores && scores[matches[i].recordId] == matches[i].score)
  }

  ghost predicate Matched(matches: seq<Match>, id: string) {
    exists i :: 0 <= i < |matches| && matches[i].recordId == id
  }

  lemma {:induction false} ScoredIsMatched(matches: seq<Match>, id: string)
    ensures id in ScoresOf(matches) <==> Matched(matches, id)
  {
    if matches != [] {
      var n := |matches| - 1;
      ScoredIsMatched(matches[..n], id);
      if i :| 0 <= i < n && matches[..n][i].recordId == id {
        assert matches[i].recordId == id;
      }
      if i :| 0 <= i < |matches| && matches[i].recordId == id {
        assert i < n ==> matches[..n][i].recordId == id;
      }
      assert matches[n].recordId == id ==> Matched(matches, id);
    }
  }

  lemma {:induction false} LastCounts(matches: seq<Match>, i: nat)
    requires i < |matches| && IsLast(matches, i)
    ensures matches[i].recordId in ScoresOf(matches) && ScoresOf(matches)[matches[i].recordId] == matches[i].score
  {
    var n := |matches| - 1;
    if i < n {
      assert IsLast(matches[..n], i);
      LastCounts(matches[..n], i);
      assert matches[n].recordId != matches[i].recordId;
    }
  }

  lemma ScoresAreLast(matches: seq<Match>)
    ensures LastScores(matches, ScoresOf(matches))
  {
    var scores := ScoresOf(matches);
    forall id
      ensures id in scores <==> Matched(matches, id)
    {
      ScoredIsMatched(matches, id);
    }
    forall i | 0 <= i < |matches| && IsLast(matches, i)
      ensures matches[i].recordId in scores && scores[matches[i].recordId] == matches[i].score
    {
      LastCounts(matches, i);
    }
  }

  function SemanticsOf(candidates: seq<Record>, search: Option<Result<seq<Match>, string>>): Semantics {
    if search.None? || candidates == [] then Semantics(false, map[], None)
    else match search.value
      case Err(reason) => Semantics(false, map[], Some(reason))
      case Ok(matches) => Semantics(true, ScoresOf(matches), None)
  }

  // ---------------------------------------------------------------------- facts

  /** The matches are the hits of the admitted candidates, one each. */
  lemma {:induction false} MatchesAre(h: HybridRetriever, terms: set<string>, semantic: Semantics, candidates: seq<Record>)
    ensures forall x :: x in h.Matches(terms, semantic, candidates) <==>
                          x.record in candidates && h.Admitted(terms, semantic, x.record) && x == h.HitOf(terms, semantic, x.record)
  {
    if candidates != [] {
      MatchesAre(h, terms, semantic, candidates[..|candidates| - 1]);
      assert candidates == candidates[..|candidates| - 1] + [candidates[|candidates| - 1]];
    }
  }

  lemma {:induction false} MatchesDistinct(h: HybridRetriever, terms: set<string>, semantic: Semantics, candidates: seq<Record>)
    requires DistinctIds(candidates)
    ensures DistinctHits(h.Matches(terms, semantic, candidates))
  {
    if candidates != [] {
      var n := |candidates| - 1;
      MatchesDistinct(h, terms, semantic, candidates[..n]);
      MatchesAre(h, terms, semantic, candidates[..n]);
      var before := h.Matches(terms, semantic, candidates[..n]);
      forall i | 0 <= i < |before|
        ensures before[i].record.recordId != candidates[n].recordId
      {
        assert before[i] in before;
      }
    }
  }

  /** Every candidate is a hit, a drop or unmatched, and the counts add up. */
  lemma CandidatesConserved(h: HybridRetriever, terms: set<string>, semantic: Semantics, candidates: seq<Record>,
                            limit: int, r: RetrievalResult)
    requires h.Retrieved(terms, semantic, candidates, limit, r)
    ensures r.candidateCount == |r.hits| + |r.dropped| + r.unmatchedCount
    ensures |r.hits| == Min(Max(0, limit), |candidates| - r.unmatchedCount)
    ensures CountKept(r.hits) == CountDisplaced(r.dropped)
  {
    var matches := h.Matches(terms, semantic, candidates);
    var picks :| Ranked(Sort(matches), picks, limit, h.kindDiversity, r.hits, r.dropped);
    SortPermutes(matches);
    RankHitsAccounts(Sort(matches), picks, limit, h.kindDiversity, r.hits, r.dropped);
  }

  /** A record's similarity, if the search scored it. */
  function SimilarityOf(scores: map<string, real>, record: Record): Option<real> {
    if record.recordId in scores then Some(scores[record.recordId]) else None
  }

  /**
   * The score of a record: the weighted share of the terms that its text has, and
   * the weighted similarity on top of it exactly when that reaches the threshold.
   */
  ghost predicate IsScoreOf(h: HybridRetriever, terms: set<string>, scores: map<string, real>, record: Record, score: real) {
    var share := h.keywordWeight * Coverage(terms, h.lexicalTerms(h.searchableText(record)));
    var similarity := SimilarityOf(scores, record);
    score == if similarity.Some? && similarity.value >= h.semanticThreshold
             then share + h.semanticWeight * similarity.value else share
  }

  /** The breakdown says where the score comes from. */
  ghost predicate Explains(b: Breakdown, h: HybridRetriever, terms: set<string>, semantic: Semantics, record: Record, score: real) {
    && b.lexical == Coverage(terms, h.lexicalTerms(h.searchableText(record))) && b.semantic == SimilarityOf(semantic.scores, record)
    && (b.semanticAdmitted <==> b.semantic.Some? && b.semantic.value >= h.semanticThreshold)
    && (b.semanticThreshold == if semantic.ran then Some(h.semanticThreshold) else None)
    && b.lexicalWeight == h.keywordWeight && b.semanticWeight == h.semanticWeight && b.combined == score
  }

  /** A hit names the keyword signal for a common term, the semantic one for a similarity that reaches the threshold. */
  lemma HitIsScored(h: HybridRetriever, terms: set<string>, semantic: Semantics, record: Record)
    ensures var hit := h.HitOf(terms, semantic, record);
            && IsScoreOf(h, terms, semantic.scores, record, hit.score)
            && Explains(hit.breakdown, h, terms, semantic, record, hit.score)
            && (Signal.Keyword in hit.matchedBy <==> hit.breakdown.lexical > 0.0)
            && (Semantic in hit.matchedBy <==> hit.breakdown.semanticAdmitted) && Metadata in hit.matchedBy
  {
    var hit := h.HitOf(terms, semantic, record);
    var keyword := if hit.breakdown.lexical > 0.0 then [Signal.Keyword] else [];
    var admitted := if hit.breakdown.semanticAdmitted then [Semantic] else [];
    assert hit.matchedBy == [Metadata] + keyword + admitted;
  }

  /** What a hit of a retrieval is: a candidate with a signal, scored and explained from its own text and similarity. */
  lemma HitsAreAdmitted(h: HybridRetriever, terms: set<string>, semantic: Semantics, candidates: seq<Record>,
                        limit: int, r: RetrievalResult, k: nat)
    requires h.Retrieved(terms, semantic, candidates, limit, r) && DistinctIds(candidates) && k < |r.hits|
    ensures var hit := r.hits[k].hit;
            && hit.record in candidates && (hit.breakdown.lexical > 0.0 || hit.breakdown.semanticAdmitted)
            && IsScoreOf(h, terms, semantic.scores, hit.record, hit.score)
            && Explains(hit.breakdown, h, terms, semantic, hit.record, hit.score)
            && (Signal.Keyword in hit.matchedBy <==> hit.breakdown.lexical > 0.0)
            && (Semantic in hit.matchedBy <==> hit.breakdown.semanticAdmitted) && Metadata in hit.matchedBy
  {
    var matches := h.Matches(terms, semantic, candidates);
    var picks :| Ranked(Sort(matches), picks, limit, h.kindDiversity, r.hits, r.dropped);
    PositionsAre(picks, |Sort(matches)|);
    MatchesDistinct(h, terms, semantic, candidates);
    SortSorts(matches);
    MatchesAre(h, terms, semantic, candidates);
    assert r.hits[k].hit in Sort(matches);
    HitIsScored(h, terms, semantic, r.hits[k].hit.record);
  }

  /** The same for a drop: it reports the score that its record would have been a hit with. */
  lemma DropsAreAdmitted(h: HybridRetriever, terms: set<string>, semantic: Semantics, candidates: seq<Record>,
                         limit: int, r: RetrievalResult, k: nat)
    requires h.Retrieved(terms, semantic, candidates, limit, r) && DistinctIds(candidates) && k < |r.dropped|
    ensures var d := r.dropped[k];
            exists record :: record in candidates && record.recordId == d.recordId && record.kind == d.kind
                             && IsScoreOf(h, terms, semantic.scores, record, d.score)
                             && Explains(d.breakdown, h, terms, semantic, record, d.score)
                             && (d.breakdown.lexical > 0.0 || d.breakdown.semanticAdmitted)
  {
    var matches := h.Matches(terms, semantic, candidates);
    var sorted := Sort(matches);
    var picks :| Ranked(sorted, picks, limit, h.kindDiversity, r.hits, r.dropped);
    var hit := DroppedHit(sorted, picks, limit, h.kindDiversity, r, k);
    SortPermutes(matches);
    MatchesAre(h, terms, semantic, candidates);
    HitIsScored(h, terms, semantic, hit.record);
  }

  /** The hit that a drop was made from. */
  lemma DroppedHit(sorted: seq<Hit>, picks: set<int>, limit: int, diversity: bool, r: RetrievalResult, k: nat) returns (hit: Hit)
    requires Ranked(sorted, picks, limit, diversity, r.hits, r.dropped) && k < |r.dropped|
    ensures hit in sorted && r.dropped[k].recordId == hit.record.recordId && r.dropped[k].kind == hit.record.kind
    ensures r.dropped[k].score == hit.score && r.dropped[k].breakdown == hit.breakdown
  {
    hit := sorted[Positions(UpTo(|sorted|) - picks, |sorted|)[k]];
  }

  // -------------------------------------------------------------- what ranks first

  /** The record has this rank among the matches, before the selection. */
  ghost predicate HasRank(r: RetrievalResult, record: Record, rank: nat) {
    || (exists k :: 0 <= k < |r.hits| && r.hits[k].hit.record == record && r.hits[k].rankBeforeSelection == rank)
    || (exists k :: 0 <= k < |r.dropped| && r.dropped[k].recordId == record.recordId && r.dropped[k].rankBeforeSelection == rank)
  }

  /** A rank is a place in the sorted list of matches. */
  lemma RankIsPlace(h: HybridRetriever, terms: set<string>, semantic: Semantics, candidates: seq<Record>, limit: int,
                    r: RetrievalResult, record: Record, rank: nat)
    requires h.Retrieved(terms, semantic, candidates, limit, r) && DistinctIds(candidates) && record in candidates
    requires HasRank(r, record, rank)
    ensures var sorted := Sort(h.Matches(terms, semantic, candidates));
            1 <= rank <= |sorted| && sorted[rank - 1] == h.HitOf(terms, semantic, record)
  {
    var matches := h.Matches(terms, semantic, candidates);
    var sorted := Sort(matches);
    var picks :| Ranked(sorted, picks, limit, h.kindDiversity, r.hits, r.dropped);
    RankInSorted(sorted, picks, limit, h.kindDiversity, r, record, rank);
    var hit := sorted[rank - 1];
    assert hit in sorted;
    SortPermutes(matches);
    MatchesAre(h, terms, semantic, candidates);
    OnlyRecord(candidates, hit.record, record);
  }

  lemma RankInSorted(sorted: seq<Hit>, picks: set<int>, limit: int, diversity: bool, r: RetrievalResult, record: Record, rank: nat)
    requires Ranked(sorted, picks, limit, diversity, r.hits, r.dropped) && HasRank(r, record, rank)
    ensures 1 <= rank <= |sorted| && sorted[rank - 1].record.recordId == record.recordId
  {
    if k :| 0 <= k < |r.hits| && r.hits[k].hit.record == record && r.hits[k].rankBeforeSelection == rank {
      assert r.hits[k].hit == sorted[Positions(picks, |sorted|)[k]];
    } else {
      var k :| 0 <= k < |r.dropped| && r.dropped[k].recordId == record.recordId && r.dropped[k].rankBeforeSelection == rank;
      assert r.dropped[k].recordId == sorted[Positions(UpTo(|sorted|) - picks, |sorted|)[k]].record.recordId;
    }
  }

  lemma OnlyRecord(records: seq<Record>, a: Record, b: Record)
    requires DistinctIds(records) && a in records && b in records && a.recordId == b.recordId
    ensures a == b
  {
    var i :| 0 <= i < |records| && records[i] == a;
    var j :| 0 <= j < |records| && records[j] == b;
  }

  /** Higher score first; of equal scores the newer record, and of equally old ones the smaller id. */
  lemma RanksFollowScores(h: HybridRetriever, terms: set<string>, semantic: Semantics, candidates: seq<Record>, limit: int,
                          r: RetrievalResult, x: Record, y: Record, a: real, b: real, i: nat, j: nat)
    requires h.Retrieved(terms, semantic, candidates, limit, r) && DistinctIds(candidates) && x in candidates && y in candidates
    requires IsScoreOf(h, terms, semantic.scores, x, a) && IsScoreOf(h, terms, semantic.scores, y, b)
    requires HasRank(r, x, i) && HasRank(r, y, j) && x != y
    ensures i < j <==> a > b || (a == b && (Less(y.createdAt, x.createdAt)
                                            || (x.createdAt == y.createdAt && Less(x.recordId, y.recordId))))
  {
    RankIsPlace(h, terms, semantic, candidates, limit, r, x, i);
    RankIsPlace(h, terms, semantic, candidates, limit, r, y, j);
    HitIsScored(h, terms, semantic, x);
    HitIsScored(h, terms, semantic, y);
    MatchesDistinct(h, terms, semantic, candidates);
    SortSorts(h.Matches(terms, semantic, candidates));
    if x.recordId == y.recordId {
      OnlyRecord(candidates, x, y);
      assert false;
    }
    PlacesFollow(Sort(h.Matches(terms, semantic, candidates)), i - 1, j - 1);
  }

  /** Of two places in a sorted list of hits of different records the first is the better one's. */
  lemma PlacesFollow(sorted: seq<Hit>, i: nat, j: nat)
    requires SortedHits(sorted) && i < |sorted| && j < |sorted| && sorted[i].record.recordId != sorted[j].record.recordId
    ensures var a, b := sorted[i], sorted[j];
            i < j <==> a.score > b.score || (a.score == b.score && (Less(b.record.createdAt, a.record.createdAt)
                         || (a.record.createdAt == b.record.createdAt && Less(a.record.recordId, b.record.recordId))))
  {
    LessTrichotomy(sorted[i].record.createdAt, sorted[j].record.createdAt);
    LessTrichotomy(sorted[i].record.recordId, sorted[j].record.recordId);
  }

  /** With the same share of the terms and similarities above the threshold, the closer record ranks first. */
  lemma CloserRanksFirst(h: HybridRetriever, terms: set<string>, semantic: Semantics, candidates: seq<Record>, limit: int,
                         r: RetrievalResult, x: Record, y: Record, i: nat, j: nat)
    requires h.Retrieved(terms, semantic, candidates, limit, r) && DistinctIds(candidates) && x in candidates && y in candidates
    requires HasRank(r, x, i) && HasRank(r, y, j) && h.semanticWeight > 0.0
    requires Coverage(terms, h.lexicalTerms(h.searchableText(x))) == Coverage(terms, h.lexicalTerms(h.searchableText(y)))
    requires x.recordId in semantic.scores && y.recordId in semantic.scores
    requires semantic.scores[x.recordId] > semantic.scores[y.recordId] >= h.semanticThreshold
    ensures i < j
  {
    HitIsScored(h, terms, semantic, x);
    HitIsScored(h, terms, semantic, y);
    var a, b := h.HitOf(terms, semantic, x).score, h.HitOf(terms, semantic, y).score;
    CloserScoresMore(h, terms, semantic.scores, x, y, a, b);
    RanksFollowScores(h, terms, semantic, candidates, limit, r, x, y, a, b, i, j);
  }

  lemma CloserScoresMore(h: HybridRetriever, terms: set<string>, scores: map<string, real>, x: Record, y: Record, a: real, b: real)
    requires IsScoreOf(h, terms, scores, x, a) && IsScoreOf(h, terms, scores, y, b) && h.semanticWeight > 0.0
    requires Coverage(terms, h.lexicalTerms(h.searchableText(x))) == Coverage(terms, h.lexicalTerms(h.searchableText(y)))
    requires x.recordId in scores && y.recordId in scores && scores[x.recordId] > scores[y.recordId] >= h.semanticThreshold
    ensures a > b
  {
    WeightedMore(h.semanticWeight, scores[x.recordId], scores[y.recordId]);
  }

  lemma WeightedMore(weight: real, p: real, q: real)
    requires weight > 0.0 && p > q
    ensures weight * p > weight * q
  {
    assert weight * (p - q) > 0.0;
  }

  /** A hit claims the semantic signal only in a retrieval that claims it. */
  lemma SemanticOnlyIfRan(h: HybridRetriever, terms: set<string>, candidates: seq<Record>,
                          search: Option<Result<seq<Match>, string>>, record: Record)
    ensures var semantic := SemanticsOf(candidates, search);
            && (Semantic in h.HitOf(terms, semantic, record).matchedBy ==> semantic.ran)
            && !(semantic.ran && semantic.degradation.Some?)
  {
  }

  // -------------------------------------------------------------------- lexical

  class LexicalRetriever {
    const store: MemoryStore.SqliteMemoryStore
    const maxCandidates: nat
    const lexicalTerms: string -> set<string>
    const searchableText: Record -> string

    constructor (store: MemoryStore.SqliteMemoryStore, maxCandidates: nat, lexicalTerms: string -> set<string>,
                 searchableText: Record -> string)
      ensures this.store == store && this.maxCandidates == maxCandidates
      ensures this.lexicalTerms == lexicalTerms && this.searchableText == searchableText
    {
      this.store, this.maxCandidates := store, maxCandidates;
      this.lexicalTerms, this.searchableText := lexicalTerms, searchableText;
    }

    /** How many of the terms occur in the record. */
    function TermCount(terms: set<string>, record: Record): nat {
      Common(terms, lexicalTerms(searchableText(record)))
    }

    function HitOf(terms: set<string>, record: Record): Hit {
      var score := TermCount(terms, record) as real;
      Hit(record, score, [Metadata, Signal.Keyword], Breakdown(score, None, false, None, 1.0, 0.0, score))
    }

    function Matches(terms: set<string>, candidates: seq<Record>): (hits: seq<Hit>)
      ensures |hits| <= |candidates|
    {
      if candidates == [] then []
      else
        var before, record := Matches(terms, candidates[..|candidates| - 1]), candidates[|candidates| - 1];
        if TermCount(terms, record) > 0 then before + [HitOf(terms, record)] else before
    }

    ghost predicate Retrieved(terms: set<string>, candidates: seq<Record>, limit: int, r: RetrievalResult) {
      && r.candidateCount == |candidates|
      && r.unmatchedCount == |candidates| - |Matches(terms, candidates)|
      && r.degraded == None && r.signalsUsed == [Metadata, Signal.Keyword]
      && exists picks :: Ranked(Sort(Matches(terms, candidates)), picks, limit, false, r.hits, r.dropped)
    }

    method Collect(terms: set<string>, candidates: seq<Record>) returns (hits: seq<Hit>, unmatched: nat)
      ensures hits == Matches(terms, candidates) && unmatched == |candidates| - |hits|
    {
      hits, unmatched := [], 0;
      for i := 0 to |candidates|
        invariant hits == Matches(terms, candidates[..i]) && unmatched == i - |hits|
      {
        assert candidates[..i + 1][..i] == candidates[..i];
        var n := CountCommon(terms, lexicalTerms(searchableText(candidates[i])));
        var score := n as real;
        if score <= 0.0 {
          unmatched := unmatched + 1;
        } else {
          hits := hits + [Hit(candidates[i], score, [Metadata, Signal.Keyword], Breakdown(score, None, false, None, 1.0, 0.0, score))];
        }
      }
      assert candidates[..|candidates|] == candidates;
    }

    function Candidates(log: MemoryStore.Log, query: RetrievalQuery): (r: seq<Record>) {
      if lexicalTerms(query.text) == {} then [] else MemoryStore.Answer(log, MetadataQuery(query, maxCandidates))
    }

    /**
     * Without terms nothing is asked of the store. Cutting the sorted list at the
     * limit is what `rankHits` does without diversity.
     */
    method Retrieve(query: RetrievalQuery, scan: seq<string>) returns (r: Result<RetrievalResult, MemoryStore.StoreError>)
      requires store.Valid() && MemoryStore.IsScan(store.rows, scan)
      ensures r.Err? <==> lexicalTerms(query.text) != {} && !store.open
      ensures r.Ok? ==> Retrieved(lexicalTerms(query.text), Candidates(store.log, query), query.limit, r.value)
    {
      var terms := lexicalTerms(query.text);
      var candidates: seq<Record> := [];
      if terms != {} {
        candidates :- store.Select(MetadataQuery(query, maxCandidates), scan);
      }
      var hits, unmatched := Collect(terms, candidates);
      SortPermutes(hits);
      var selected, dropped := Cut(Sort(hits), query.limit);
      r := Ok(RetrievalResult(selected, dropped, [Metadata, Signal.Keyword], None, |candidates|, unmatched));
    }
  }

  method Cut(sorted: seq<Hit>, limit: int) returns (selected: seq<RankedHit>, dropped: seq<Drop>)
    ensures exists picks :: Ranked(sorted, picks, limit, false, selected, dropped)
  {
    var cut := Min(Max(0, limit), |sorted|);
    selected := KeepFirst(sorted, cut);
    dropped := DropRest(sorted, cut);
    CutIsRanked(sorted, limit, selected, dropped);
  }

  method KeepFirst(sorted: seq<Hit>, cut: nat) returns (selected: seq<RankedHit>)
    requires cut <= |sorted|
    ensures |selected| == cut
    ensures forall k :: 0 <= k < cut ==> selected[k] == RankedHit(sorted[k], k + 1, false, k + 1)
  {
    selected := [];
    for k := 0 to cut
      invariant |selected| == k
      invariant forall j :: 0 <= j < k ==> selected[j] == RankedHit(sorted[j], j + 1, false, j + 1)
    {
      selected := selected + [RankedHit(sorted[k], k + 1, false, k + 1)];
    }
  }

  method DropRest(sorted: seq<Hit>, cut: nat) returns (dropped: seq<Drop>)
    requires cut <= |sorted|
    ensures |dropped| == |sorted| - cut
    ensures forall k :: 0 <= k < |dropped| ==> dropped[k] == DropOf(sorted[cut + k], cut + k + 1, cut, false)
  {
    dropped := [];
    for k := cut to |sorted|
      invariant |dropped| == k - cut
      invariant forall j :: 0 <= j < |dropped| ==> dropped[j] == DropOf(sorted[cut + j], cut + j + 1, cut, false)
    {
      dropped := dropped + [DropOf(sorted[k], k + 1, cut, false)];
    }
  }

  /** The positions below a cut are in front, those from it on behind. */
  lemma {:induction false} CutPositions(picks: set<int>, rest: set<int>, n: nat, cut: nat)
    requires forall i :: 0 <= i < n ==> (i in picks <==> i < cut) && (i in rest <==> cut <= i)
    ensures |Positions(picks, n)| == Min(cut, n) && forall k :: 0 <= k < Min(cut, n) ==> Positions(picks, n)[k] == k
    ensures |Positions(rest, n)| == Max(n - cut, 0) && forall k :: 0 <= k < n - cut ==> Positions(rest, n)[k] == cut + k
  {
    if n > 0 {
      CutPositions(picks, rest, n - 1, cut);
    }
  }

  lemma CutIsRanked(sorted: seq<Hit>, limit: int, selected: seq<RankedHit>, dropped: seq<Drop>)
    requires var cut := Min(Max(0, limit), |sorted|);
             && |selected| == cut && |dropped| == |sorted| - cut
             && (forall k :: 0 <= k < cut ==> selected[k] == RankedHit(sorted[k], k + 1, false, k + 1))
             && (forall k :: 0 <= k < |dropped| ==> dropped[k] == DropOf(sorted[cut + k], cut + k + 1, cut, false))
    ensures Ranked(sorted, UpTo(Min(Max(0, limit), |sorted|)), limit, false, selected, dropped)
  {
    var n, cut := |sorted|, Min(Max(0, limit), |sorted|);
    var picks, rest := UpTo(cut), UpTo(n) - UpTo(cut);
    CutPositions(picks, rest, n, cut);
    FrontIsHits(sorted, Positions(picks, n), limit, selected);
    BackIsDrops(sorted, Positions(rest, n), limit, dropped);
  }

  lemma FrontIsHits(sorted: seq<Hit>, p: seq<int>, limit: int, selected: seq<RankedHit>)
    requires |p| == |selected| == Min(Max(0, limit), |sorted|)
    requires forall k :: 0 <= k < |p| ==> p[k] == k && selected[k] == RankedHit(sorted[k], k + 1, false, k + 1)
    ensures HitsAt(sorted, p, Max(0, limit), false, selected)
  {
  }

  lemma BackIsDrops(sorted: seq<Hit>, p: seq<int>, limit: int, dropped: seq<Drop>)
    requires |p| == |dropped| == |sorted| - Min(Max(0, limit), |sorted|)
    requires var cut := Min(Max(0, limit), |sorted|);
             forall k :: 0 <= k < |p| ==> p[k] == cut + k && dropped[k] == DropOf(sorted[cut + k], cut + k + 1, cut, false)
    ensures DropsAt(sorted, p, Max(0, limit), false, dropped)
  {
  }

  // ---------------------------------------------- a degraded retrieval is lexical

  /** The same records, with every score multiplied by the same positive factor. */
  ghost predicate Scaled(factor: real, a: seq<Hit>, b: seq<Hit>) {
    |a| == |b| && forall i :: 0 <= i < |a| ==> ScaledHit(factor, a[i], b[i])
  }

  ghost predicate ScaledHit(factor: real, a: Hit, b: Hit) {
    a.record == b.record && a.score == factor * b.score
  }

  lemma ScalingKeepsOrder(factor: real, a: Hit, b: Hit, c: Hit, d: Hit)
    requires factor > 0.0 && ScaledHit(factor, a, c) && ScaledHit(factor, b, d)
    ensures Before(a, b) <==> Before(c, d)
  {
    if c.score > d.score {
      assert factor * (c.score - d.score) > 0.0;
    } else if c.score < d.score {
      assert factor * (d.score - c.score) > 0.0;
    }
  }

  lemma {:induction false} InsertScaled(factor: real, h: Hit, l: Hit, a: seq<Hit>, b: seq<Hit>)
    requires factor > 0.0 && Scaled(factor, a, b) && ScaledHit(factor, h, l)
    ensures Scaled(factor, Lists.Insert(Before, h, a), Lists.Insert(Before, l, b))
  {
    if a != [] {
      ScalingKeepsOrder(factor, a[0], h, b[0], l);
      InsertScaled(factor, h, l, a[1..], b[1..]);
    }
  }

  lemma {:induction false} SortScaled(factor: real, a: seq<Hit>, b: seq<Hit>)
    requires factor > 0.0 && Scaled(factor, a, b)
    ensures Scaled(factor, Sort(a), Sort(b))
  {
    if a != [] {
      SortScaled(factor, a[1..], b[1..]);
      InsertScaled(factor, a[0], b[0], Sort(a[1..]), Sort(b[1..]));
    }
  }

  lemma CoverageIsScaled(weight: real, terms: set<string>, words: set<string>)
    requires terms != {}
    ensures weight * Coverage(terms, words) == weight / |terms| as real * Common(terms, words) as real
    ensures Coverage(terms, words) > 0.0 <==> Common(terms, words) > 0
  {
    QuotientRange(Common(terms, words), |terms|) by {
      assert terms == terms * words + (terms - words);
    }
  }

  lemma {:induction false} MatchesScaled(h: HybridRetriever, l: LexicalRetriever, terms: set<string>, semantic: Semantics,
                                         candidates: seq<Record>)
    requires terms != {} && semantic.scores == map[]
    requires h.lexicalTerms == l.lexicalTerms && h.searchableText == l.searchableText
    ensures Scaled(h.keywordWeight / |terms| as real, h.Matches(terms, semantic, candidates), l.Matches(terms, candidates))
  {
    if candidates != [] {
      MatchesScaled(h, l, terms, semantic, candidates[..|candidates| - 1]);
      MatchScaled(h, l, terms, semantic, candidates[|candidates| - 1]);
    }
  }

  lemma MatchScaled(h: HybridRetriever, l: LexicalRetriever, terms: set<string>, semantic: Semantics, record: Record)
    requires terms != {} && semantic.scores == map[]
    requires h.lexicalTerms == l.lexicalTerms && h.searchableText == l.searchableText
    ensures h.Admitted(terms, semantic, record) <==> l.TermCount(terms, record) > 0
    ensures ScaledHit(h.keywordWeight / |terms| as real, h.HitOf(terms, semantic, record), l.HitOf(terms, record))
  {
    CoverageIsScaled(h.keywordWeight, terms, h.lexicalTerms(h.searchableText(record)));
  }

  /**
   * A hybrid retrieval without semantic scores and without kind diversity
   * returns and drops the same records, in the same order, as the lexical one.
   */
  lemma DegradedIsLexical(h: HybridRetriever, l: LexicalRetriever, terms: set<string>, semantic: Semantics,
                          candidates: seq<Record>, limit: int, a: RetrievalResult, b: RetrievalResult)
    requires terms != {} && semantic.scores == map[] && h.keywordWeight > 0.0 && !h.kindDiversity
    requires h.lexicalTerms == l.lexicalTerms && h.searchableText == l.searchableText
    requires h.Retrieved(terms, semantic, candidates, limit, a) && l.Retrieved(terms, candidates, limit, b)
    ensures |a.hits| == |b.hits| && forall k :: 0 <= k < |a.hits| ==> a.hits[k].hit.record == b.hits[k].hit.record
    ensures |a.dropped| == |b.dropped| && forall k :: 0 <= k < |a.dropped| ==> a.dropped[k].recordId == b.dropped[k].recordId
    ensures a.candidateCount == b.candidateCount && a.unmatchedCount == b.unmatchedCount
  {
    FactorPositive(h.keywordWeight, |terms|);
    MatchesScaled(h, l, terms, semantic, candidates);
    var hm, lm := h.Matches(terms, semantic, candidates), l.Matches(terms, candidates);
    var p :| Ranked(Sort(hm), p, limit, h.kindDiversity, a.hits, a.dropped);
    var q :| Ranked(Sort(lm), q, limit, false, b.hits, b.dropped);
    SortedAlike(h.keywordWeight / |terms| as real, hm, lm, p, q, limit, a, b);
  }

  lemma FactorPositive(weight: real, n: nat)
    requires weight > 0.0 && n > 0
    ensures weight / n as real > 0.0
  {
  }

  lemma SortedAlike(factor: real, a: seq<Hit>, b: seq<Hit>, p: set<int>, q: set<int>, limit: int, x: RetrievalResult, y: RetrievalResult)
    requires factor > 0.0 && Scaled(factor, a, b)
    requires Ranked(Sort(a), p, limit, false, x.hits, x.dropped) && Ranked(Sort(b), q, limit, false, y.hits, y.dropped)
    ensures |x.hits| == |y.hits| && forall k :: 0 <= k < |x.hits| ==> x.hits[k].hit.record == y.hits[k].hit.record
    ensures |x.dropped| == |y.dropped| && forall k :: 0 <= k < |x.dropped| ==> x.dropped[k].recordId == y.dropped[k].recordId
  {
    SortScaled(factor, a, b);
    CutAlike(factor, Sort(a), Sort(b), p, q, limit, x, y);
  }

  lemma CutAlike(factor: real, a: seq<Hit>, b: seq<Hit>, p: set<int>, q: set<int>, limit: int, x: RetrievalResult, y: RetrievalResult)
    requires Scaled(factor, a, b)
    requires Ranked(a, p, limit, false, x.hits, x.dropped) && Ranked(b, q, limit, false, y.hits, y.dropped)
    ensures |x.hits| == |y.hits| && forall k :: 0 <= k < |x.hits| ==> x.hits[k].hit.record == y.hits[k].hit.record
    ensures |x.dropped| == |y.dropped| && forall k :: 0 <= k < |x.dropped| ==> x.dropped[k].recordId == y.dropped[k].recordId
  {
    assert p == q;
    SameHits(factor, a, b, Positions(p, |a|), Max(0, limit), x.hits, y.hits);
    SameDrops(factor, a, b, Positions(UpTo(|a|) - p, |a|), Max(0, limit), x.dropped, y.dropped);
  }

  lemma SameHits(factor: real, a: seq<Hit>, b: seq<Hit>, p: seq<int>, capped: nat, x: seq<RankedHit>, y: seq<RankedHit>)
    requires Scaled(factor, a, b) && HitsAt(a, p, capped, false, x) && HitsAt(b, p, capped, false, y)
    ensures |x| == |y| && forall k :: 0 <= k < |x| ==> x[k].hit.record == y[k].hit.record
  {
  }

  lemma SameDrops(factor: real, a: seq<Hit>, b: seq<Hit>, p: seq<int>, capped: nat, x: seq<Drop>, y: seq<Drop>)
    requires Scaled(factor, a, b) && DropsAt(a, p, capped, false, x) && DropsAt(b, p, capped, false, y)
    ensures |x| == |y| && forall k :: 0 <= k < |x| ==> x[k].recordId == y[k].recordId
  {
  }
}
