// rankHits of src/memory/hybrid-retriever.ts and compareHits of
// src/memory/lexical-retriever.ts: the ranking order, the greedy selection
// with kind diversity, and why that selection is the best one.

module Ranking {
  import opened Support
  import opened Text
  import opened Records
  import opened Sets
  import Lists

  datatype Signal = Metadata | Keyword | Semantic
  datatype Breakdown = Breakdown(lexical: real, semantic: Option<real>, semanticAdmitted: bool, semanticThreshold: Option<real>,
                                 lexicalWeight: real, semanticWeight: real, combined: real)
  datatype Hit = Hit(record: Record, score: real, matchedBy: seq<Signal>, breakdown: Breakdown)

  datatype RankedHit = RankedHit(hit: Hit, rankBeforeSelection: nat, keptByDiversity: bool, finalRank: nat)
  datatype DropReason = BelowLimit | DisplacedByDiversity
  datatype Drop = Drop(recordId: string, kind: Kind, score: real, breakdown: Breakdown, rankBeforeSelection: nat, reason: DropReason)

  // --------------------------------------------------------------------- order

  /** `compareHits(a, b) < 0`: higher score, then newer, then smaller id. */
  predicate Before(a: Hit, b: Hit) {
    a.score > b.score ||
    (a.score == b.score &&
     (Less(b.record.createdAt, a.record.createdAt) ||
      (a.record.createdAt == b.record.createdAt && Less(a.record.recordId, b.record.recordId))))
  }

  /** Two different records are never tied, and never ordered both ways. */
  lemma BeforeTotal(a: Hit, b: Hit)
    requires a.record.recordId != b.record.recordId
    ensures Before(a, b) <==> !Before(b, a)
  {
    LessTrichotomy(a.record.createdAt, b.record.createdAt);
    LessTrichotomy(a.record.recordId, b.record.recordId);
  }

  lemma BeforeTransitive(a: Hit, b: Hit, c: Hit)
    requires Before(a, b) && Before(b, c)
    ensures Before(a, c)
  {
    if a.score == b.score == c.score {
      if Less(b.record.createdAt, a.record.createdAt) && Less(c.record.createdAt, b.record.createdAt) {
        LessTransitive(c.record.createdAt, b.record.createdAt, a.record.createdAt);
      }
      if Less(a.record.recordId, b.record.recordId) && Less(b.record.recordId, c.record.recordId) {
        LessTransitive(a.record.recordId, b.record.recordId, c.record.recordId);
      }
    }
  }

  predicate DistinctHits(hits: seq<Hit>) {
    forall i, j :: 0 <= i < j < |hits| ==> hits[i].record.recordId != hits[j].record.recordId
  }

  predicate SortedHits(hits: seq<Hit>) {
    forall i, j :: 0 <= i < j < |hits| ==> Before(hits[i], hits[j])
  }

  // ---------------------------------------------------------------------- sort

  /** `hits.sort(compareHits)`. */
  function Sort(hits: seq<Hit>): seq<Hit> {
    Lists.Sort(Before, hits)
  }

  /** Sorting loses and invents nothing. */
  lemma SortPermutes(hits: seq<Hit>)
    ensures multiset(Sort(hits)) == multiset(hits)
    ensures |Sort(hits)| == |hits|
    ensures forall x :: x in Sort(hits) <==> x in hits
  {
    Lists.SortPermutes(Before, hits);
    forall x
      ensures x in Sort(hits) <==> x in hits
    {
      Lists.SortHas(Before, hits, x);
    }
  }

  /** `compareHits` is a total order on the hits of different records. */
  lemma BeforeIsOrder(hits: seq<Hit>)
    requires DistinctHits(hits)
    ensures Lists.IsOrderOn(Before, hits) && Lists.IsTotalOn(Before, hits)
  {
    forall a, b | a in hits && b in hits
      ensures !(Before(a, b) && Before(b, a)) && (a == b || Before(a, b) || Before(b, a))
    {
      SameOrDifferent(hits, a, b);
      NotBothBefore(a, b);
    }
    forall a, b, c | a in hits && b in hits && c in hits && !Before(b, a) && !Before(c, b)
      ensures !Before(c, a)
    {
      NotBothBefore(a, c);
      NotBothBefore(b, a);
      if a != b && b != c {
        BeforeTransitive(a, b, c);
      }
    }
  }

  lemma SameOrDifferent(hits: seq<Hit>, a: Hit, b: Hit)
    requires DistinctHits(hits) && a in hits && b in hits
    ensures a == b || Before(a, b) || Before(b, a)
  {
    var i :| 0 <= i < |hits| && hits[i] == a;
    var j :| 0 <= j < |hits| && hits[j] == b;
    if i < j {
      BeforeTotal(a, b);
    } else if j < i {
      BeforeTotal(b, a);
    }
  }

  lemma NotBothBefore(a: Hit, b: Hit)
    ensures !(Before(a, b) && Before(b, a))
  {
    LessTrichotomy(a.record.createdAt, b.record.createdAt);
    LessTrichotomy(a.record.recordId, b.record.recordId);
  }

  lemma SortSorts(hits: seq<Hit>)
    requires DistinctHits(hits)
    ensures SortedHits(Sort(hits)) && DistinctHits(Sort(hits))
    ensures forall x :: x in Sort(hits) <==> x in hits
  {
    var sorted := Sort(hits);
    BeforeIsOrder(hits);
    SortPermutes(hits);
    Lists.SortSorts(Before, hits);
    forall i, j | 0 <= i < j < |sorted|
      ensures Before(sorted[i], sorted[j]) && sorted[i].record.recordId != sorted[j].record.recordId
    {
      DifferentHits(hits, sorted, i, j);
    }
  }

  lemma DifferentHits(hits: seq<Hit>, sorted: seq<Hit>, i: nat, j: nat)
    requires DistinctHits(hits) && multiset(sorted) == multiset(hits) && i < j < |sorted|
    requires Lists.InOrder(Before, sorted)
    ensures Before(sorted[i], sorted[j]) && sorted[i].record.recordId != sorted[j].record.recordId
  {
    var a, b := sorted[i], sorted[j];
    assert a in multiset(hits) && b in multiset(hits);
    Lists.DistinctOnce(hits, a);
    Lists.DistinctPlaces(sorted, i, j);
    SameIdSameHit(hits, a, b);
    SameOrDifferent(hits, a, b);
  }

  lemma SameIdSameHit(hits: seq<Hit>, a: Hit, b: Hit)
    requires DistinctHits(hits) && a in hits && b in hits
    ensures a.record.recordId == b.record.recordId ==> a == b
  {
  }

  /** Sorting a list that is already in order changes nothing. */
  lemma SortIdentity(hits: seq<Hit>)
    requires SortedHits(hits)
    ensures Sort(hits) == hits
  {
    forall i, j | 0 <= i < j < |hits|
      ensures !Before(hits[j], hits[i])
    {
      NotBeforeBack(hits[i], hits[j]);
    }
    Lists.SortIdentity(Before, hits);
  }

  lemma NotBeforeBack(a: Hit, b: Hit)
    requires Before(a, b)
    ensures !Before(b, a)
  {
    LessTrichotomy(a.record.createdAt, b.record.createdAt);
    LessTrichotomy(a.record.recordId, b.record.recordId);
  }

  // ----------------------------------------------------------------- selections

  /** The kinds among the first `n` hits. */
  function Kinds(ranked: seq<Hit>, n: nat): set<Kind>
    requires n <= |ranked|
  {
    if n == 0 then {} else Kinds(ranked, n - 1) + {ranked[n - 1].record.kind}
  }

  /** The best hit of its kind: no better hit has the same kind. */
  predicate IsLeader(ranked: seq<Hit>, i: int)
    requires 0 <= i < |ranked|
  {
    ranked[i].record.kind !in Kinds(ranked, i)
  }

  lemma {:induction false} KindsSeen(ranked: seq<Hit>, n: nat, j: nat)
    requires j < n <= |ranked|
    ensures ranked[j].record.kind in Kinds(ranked, n)
  {
    if j < n - 1 {
      KindsSeen(ranked, n - 1, j);
    }
  }

  /** The leader of a kind that occurs among the first `n` hits. */
  lemma {:induction false} LeaderOf(ranked: seq<Hit>, n: nat, kind: Kind) returns (leader: nat)
    requires n <= |ranked| && kind in Kinds(ranked, n)
    ensures leader < n && IsLeader(ranked, leader) && ranked[leader].record.kind == kind
  {
    if kind in Kinds(ranked, n - 1) {
      leader := LeaderOf(ranked, n - 1, kind);
    } else {
      leader := n - 1;
    }
  }

  function Leaders(ranked: seq<Hit>, n: nat): set<int>
    requires n <= |ranked|
  {
    if n == 0 then {}
    else if IsLeader(ranked, n - 1) then Leaders(ranked, n - 1) + {n - 1}
    else Leaders(ranked, n - 1)
  }

  lemma {:induction false} LeadersAre(ranked: seq<Hit>, n: nat)
    requires n <= |ranked|
    ensures forall i :: i in Leaders(ranked, n) <==> 0 <= i < n && IsLeader(ranked, i)
  {
    if n > 0 {
      LeadersAre(ranked, n - 1);
    }
  }

  /** There are as many leaders as kinds. */
  lemma {:induction false} OneLeaderPerKind(ranked: seq<Hit>, n: nat)
    requires n <= |ranked|
    ensures |Leaders(ranked, n)| == |Kinds(ranked, n)|
  {
    if n > 0 {
      OneLeaderPerKind(ranked, n - 1);
      NotAmongEarlier(ranked, n - 1);
      SizeOfAdd(Leaders(ranked, n - 1), n - 1);
      SizeOfAdd(Kinds(ranked, n - 1), ranked[n - 1].record.kind);
    }
  }

  lemma NotAmongEarlier(ranked: seq<Hit>, i: nat)
    requires i < |ranked|
    ensures i !in Leaders(ranked, i)
  {
    LeadersAre(ranked, i);
  }

  /**
   * The selection with diversity: full, and a hit is passed over only for the
   * sake of leaders. A hit that is not a leader is taken only after every better
   * hit and every leader; a leader only after every better leader.
   */
  ghost predicate DiverseSelection(ranked: seq<Hit>, picks: set<int>, capped: nat) {
    && |picks| == capped && picks <= UpTo(|ranked|)
    && (forall i, j :: i in picks && 0 <= j < i && j !in picks ==> IsLeader(ranked, i) && !IsLeader(ranked, j))
    && (forall i, j :: i in picks && 0 <= j < |ranked| && j !in picks && IsLeader(ranked, j) ==> IsLeader(ranked, i))
  }

  /** The plain selection: the first hits. */
  ghost predicate Selection(ranked: seq<Hit>, picks: set<int>, capped: nat, diversity: bool) {
    if !diversity || |ranked| <= capped then picks == UpTo(Min(capped, |ranked|))
    else DiverseSelection(ranked, picks, capped)
  }

  /** `chosen` holds the ids of exactly the picked hits. */
  ghost predicate Names(ranked: seq<Hit>, picks: set<int>, chosen: set<string>) {
    && |chosen| == |picks| && picks <= UpTo(|ranked|)
    && forall i :: 0 <= i < |ranked| ==> (ranked[i].record.recordId in chosen <==> i in picks)
  }

  lemma NameAdded(ranked: seq<Hit>, picks: set<int>, chosen: set<string>, i: nat)
    requires DistinctHits(ranked) && Names(ranked, picks, chosen) && i < |ranked|
    ensures Names(ranked, picks + {i}, chosen + {ranked[i].record.recordId})
  {
    var id := ranked[i].record.recordId;
    SizeOfAdd(picks, i);
    SizeOfAdd(chosen, id);
    forall j | 0 <= j < |ranked|
      ensures ranked[j].record.recordId in chosen + {id} <==> j in picks + {i}
    {
      assert j < i ==> ranked[j].record.recordId != id;
      assert i < j ==> id != ranked[j].record.recordId;
    }
  }

  /**
   * The first pass after `i` hits: exactly the leaders among them are chosen.
   * Spelt so that the loop carries it whole; `PassOneIs` unfolds it.
   */
  ghost predicate PassOne(ranked: seq<Hit>, i: nat, kindsSeen: set<Kind>, chosen: set<string>)
    requires i <= |ranked|
  {
    forall k {:trigger ranked[..k]} :: k == i ==> kindsSeen == Kinds(ranked, k) && Names(ranked, Leaders(ranked, k), chosen)
  }

  lemma PassOneIs(ranked: seq<Hit>, i: nat, kindsSeen: set<Kind>, chosen: set<string>)
    requires i <= |ranked|
    ensures PassOne(ranked, i, kindsSeen, chosen) <==>
            kindsSeen == Kinds(ranked, i) && Names(ranked, Leaders(ranked, i), chosen)
  {
    assert ranked[..i] == ranked[..i];
  }

  /** A hit whose kind was seen before changes nothing. */
  lemma KindSeenBefore(ranked: seq<Hit>, i: nat, kindsSeen: set<Kind>, chosen: set<string>)
    requires i < |ranked| && PassOne(ranked, i, kindsSeen, chosen) && ranked[i].record.kind in kindsSeen
    ensures PassOne(ranked, i + 1, kindsSeen, chosen)
  {
    PassOneIs(ranked, i, kindsSeen, chosen);
    PassOneIs(ranked, i + 1, kindsSeen, chosen);
    assert Kinds(ranked, i) + {ranked[i].record.kind} == Kinds(ranked, i);
  }

  /** A hit of a new kind is a leader. */
  lemma KindIsNew(ranked: seq<Hit>, i: nat, kindsSeen: set<Kind>, chosen: set<string>)
    requires DistinctHits(ranked) && i < |ranked| && PassOne(ranked, i, kindsSeen, chosen) && ranked[i].record.kind !in kindsSeen
    ensures PassOne(ranked, i + 1, kindsSeen + {ranked[i].record.kind}, chosen + {ranked[i].record.recordId})
  {
    PassOneIs(ranked, i, kindsSeen, chosen);
    NameAdded(ranked, Leaders(ranked, i), chosen, i);
    PassOneIs(ranked, i + 1, kindsSeen + {ranked[i].record.kind}, chosen + {ranked[i].record.recordId});
  }

  /** The loop over the leaders: those of the first `p` hits, all of them unless the limit is reached. */
  method PickLeaders(ranked: seq<Hit>, capped: nat) returns (chosen: set<string>, ghost p: nat)
    requires DistinctHits(ranked)
    ensures p <= |ranked| && Names(ranked, Leaders(ranked, p), chosen) && |chosen| <= capped
    ensures p == |ranked| || |chosen| == capped
  {
    chosen := {};
    var kindsSeen: set<Kind> := {};
    PassOneIs(ranked, 0, {}, {});
    for i := 0 to |ranked|
      invariant PassOne(ranked, i, kindsSeen, chosen) && |chosen| <= capped
    {
      if |chosen| >= capped {
        p := i;
        PassOneIs(ranked, i, kindsSeen, chosen);
        return;
      }
      chosen, kindsSeen := ConsiderLeader(ranked, i, chosen, kindsSeen);
    }
    p := |ranked|;
    PassOneIs(ranked, p, kindsSeen, chosen);
  }

  /** One turn of the first pass: a kind seen before is skipped. */
  method ConsiderLeader(ranked: seq<Hit>, i: nat, before: set<string>, seen: set<Kind>)
    returns (chosen: set<string>, kindsSeen: set<Kind>)
    requires DistinctHits(ranked) && i < |ranked| && PassOne(ranked, i, seen, before)
    ensures PassOne(ranked, i + 1, kindsSeen, chosen) && |chosen| <= |before| + 1
  {
    if ranked[i].record.kind in seen {
      KindSeenBefore(ranked, i, seen, before);
      return before, seen;
    }
    KindIsNew(ranked, i, seen, before);
    return before + {ranked[i].record.recordId}, seen + {ranked[i].record.kind};
  }

  /** What the second pass has picked after `i` hits: the leaders of the first pass and the first `i` hits. */
  ghost predicate Filled(ranked: seq<Hit>, p: nat, i: nat, picks: set<int>)
    requires p <= |ranked| && i <= |ranked|
  {
    forall j :: j in picks <==> j in Leaders(ranked, p) || 0 <= j < i
  }

  lemma FilledStep(ranked: seq<Hit>, p: nat, i: nat, picks: set<int>)
    requires p <= |ranked| && i < |ranked| && Filled(ranked, p, i, picks)
    ensures Filled(ranked, p, i + 1, picks + {i})
  {
  }

  /** The loop over what is left: hits from the front until the limit is reached. */
  method FillUp(ranked: seq<Hit>, capped: nat, start: set<string>, ghost p: nat) returns (chosen: set<string>, ghost picks: set<int>)
    requires DistinctHits(ranked) && |ranked| > capped && p <= |ranked|
    requires Names(ranked, Leaders(ranked, p), start) && |start| <= capped
    requires p == |ranked| || |start| == capped
    ensures DiverseSelection(ranked, picks, capped) && Names(ranked, picks, chosen)
  {
    chosen, picks := start, Leaders(ranked, p);
    for i := 0 to |ranked|
      invariant Filled(ranked, p, i, picks) && Names(ranked, picks, chosen) && |chosen| <= capped
      invariant if i == 0 then chosen == start else p == |ranked|
    {
      if |chosen| >= capped {
        FilledIsDiverse(ranked, picks, capped, p, i);
        return;
      }
      FilledStep(ranked, p, i, picks);
      NameAdded(ranked, picks, chosen, i);
      chosen, picks := chosen + {ranked[i].record.recordId}, picks + {i};
    }
    AllPicked(ranked, picks, p);
    assert false;
  }

  lemma AllPicked(ranked: seq<Hit>, picks: set<int>, p: nat)
    requires p <= |ranked| && Filled(ranked, p, |ranked|, picks) && picks <= UpTo(|ranked|)
    ensures |picks| == |ranked|
  {
    assert picks == UpTo(|ranked|);
  }

  lemma FilledIsDiverse(ranked: seq<Hit>, picks: set<int>, capped: nat, p: nat, q: nat)
    requires p <= |ranked| && q <= |ranked| && Filled(ranked, p, q, picks) && |picks| == capped
    requires picks <= UpTo(|ranked|)
    requires q > 0 ==> p == |ranked|
    ensures DiverseSelection(ranked, picks, capped)
  {
    LeadersAre(ranked, p);
  }

  method Choose(ranked: seq<Hit>, capped: nat, diversity: bool) returns (chosen: set<string>, ghost picks: set<int>)
    requires DistinctHits(ranked)
    ensures Selection(ranked, picks, capped, diversity) && Names(ranked, picks, chosen)
  {
    if !diversity || |ranked| <= capped {
      var n := Min(capped, |ranked|);
      chosen, picks := {}, UpTo(n);
      for i := 0 to n
        invariant Names(ranked, UpTo(i), chosen)
      {
        NameAdded(ranked, UpTo(i), chosen, i);
        chosen := chosen + {ranked[i].record.recordId};
      }
    } else {
      ghost var p;
      chosen, p := PickLeaders(ranked, capped);
      chosen, picks := FillUp(ranked, capped, chosen, p);
    }
  }

  // ----------------------------------------------------------------- accounting

  /** The picked positions below `n`, in order. */
  function Positions(picks: set<int>, n: nat): (p: seq<int>)
    ensures forall k :: 0 <= k < |p| ==> 0 <= p[k] < n
  {
    if n == 0 then []
    else if n - 1 in picks then Positions(picks, n - 1) + [n - 1]
    else Positions(picks, n - 1)
  }

  lemma {:induction false} PositionsAre(picks: set<int>, n: nat)
    ensures |Positions(picks, n)| <= n
    ensures forall k :: 0 <= k < |Positions(picks, n)| ==>
              k <= Positions(picks, n)[k] < n && Positions(picks, n)[k] in picks
    ensures forall k, l :: 0 <= k < l < |Positions(picks, n)| ==> Positions(picks, n)[k] < Positions(picks, n)[l]
    ensures forall i :: 0 <= i < n && i in picks ==> i in Positions(picks, n)
  {
    if n > 0 {
      PositionsAre(picks, n - 1);
    }
  }

  lemma {:induction false} PositionsCount(picks: set<int>, n: nat)
    requires picks <= UpTo(n)
    ensures |Positions(picks, n)| == |picks|
  {
    if n > 0 {
      var rest := picks - {n - 1};
      PositionsCount(rest, n - 1);
      SamePositions(picks, rest, n - 1);
    }
  }

  lemma {:induction false} SamePositions(a: set<int>, b: set<int>, n: nat)
    requires forall i :: 0 <= i < n ==> (i in a <==> i in b)
    ensures Positions(a, n) == Positions(b, n)
  {
    if n > 0 {
      SamePositions(a, b, n - 1);
    }
  }

  function CountBelow(p: seq<int>, bound: int): nat {
    if p == [] then 0 else CountBelow(p[..|p| - 1], bound) + if p[|p| - 1] < bound then 1 else 0
  }

  /** Below any bound, the picked and the passed-over positions together are all positions. */
  lemma {:induction false} PickedOrPassed(picks: set<int>, rest: set<int>, n: nat, bound: nat)
    requires forall i :: 0 <= i < n ==> (i in rest <==> i !in picks)
    ensures CountBelow(Positions(picks, n), bound) + CountBelow(Positions(rest, n), bound) == Min(n, bound)
    ensures |Positions(picks, n)| + |Positions(rest, n)| == n
  {
    if n > 0 {
      PickedOrPassed(picks, rest, n - 1, bound);
      if n - 1 in picks {
        CountAppend(Positions(picks, n - 1), n - 1, bound);
        assert Positions(rest, n) == Positions(rest, n - 1);
      } else {
        CountAppend(Positions(rest, n - 1), n - 1, bound);
        assert Positions(picks, n) == Positions(picks, n - 1);
      }
    }
  }

  lemma CountAppend(p: seq<int>, x: int, bound: int)
    ensures CountBelow(p + [x], bound) == CountBelow(p, bound) + if x < bound then 1 else 0
  {
    assert (p + [x])[..|p|] == p;
  }

  /** The hits whose id is chosen, or those whose id is not. */
  function Filter(ranked: seq<Hit>, chosen: set<string>, keep: bool): seq<Hit> {
    if ranked == [] then []
    else
      var before, last := Filter(ranked[..|ranked| - 1], chosen, keep), ranked[|ranked| - 1];
      if (last.record.recordId in chosen) == keep then before + [last] else before
  }

  function At(ranked: seq<Hit>, p: seq<int>): (r: seq<Hit>)
    requires forall k :: 0 <= k < |p| ==> 0 <= p[k] < |ranked|
    ensures |r| == |p| && forall k :: 0 <= k < |p| ==> r[k] == ranked[p[k]]
  {
    seq(|p|, k requires 0 <= k < |p| => ranked[p[k]])
  }

  lemma {:induction false} FilterIsAt(ranked: seq<Hit>, chosen: set<string>, keep: bool, picks: set<int>, n: nat)
    requires n <= |ranked|
    requires forall i :: 0 <= i < n ==> ((ranked[i].record.recordId in chosen) == keep <==> i in picks)
    ensures Filter(ranked[..n], chosen, keep) == At(ranked, Positions(picks, n))
  {
    if n > 0 {
      FilterIsAt(ranked, chosen, keep, picks, n - 1);
      assert ranked[..n][..n - 1] == ranked[..n - 1];
      AtAppend(ranked, Positions(picks, n - 1), n - 1);
    }
  }

  lemma AtAppend(ranked: seq<Hit>, p: seq<int>, x: int)
    requires 0 <= x < |ranked| && forall k :: 0 <= k < |p| ==> 0 <= p[k] < |ranked|
    ensures At(ranked, p + [x]) == At(ranked, p) + [ranked[x]]
  {
  }

  function CountKept(hits: seq<RankedHit>): nat {
    if hits == [] then 0 else CountKept(hits[..|hits| - 1]) + if hits[|hits| - 1].keptByDiversity then 1 else 0
  }

  function CountDisplaced(dropped: seq<Drop>): nat {
    if dropped == [] then 0
    else CountDisplaced(dropped[..|dropped| - 1]) + if dropped[|dropped| - 1].reason == DisplacedByDiversity then 1 else 0
  }

  /** Each returned hit is an input hit with its old and new rank, and is marked exactly when it lies behind the limit. */
  ghost predicate HitsAt(ranked: seq<Hit>, p: seq<int>, capped: nat, diversity: bool, hits: seq<RankedHit>) {
    && |hits| == |p|
    && forall k :: 0 <= k < |p| ==>
         && 0 <= p[k] < |ranked|
         && hits[k] == RankedHit(ranked[p[k]], p[k] + 1, diversity && |ranked| > capped && p[k] >= capped, k + 1)
  }

  ghost predicate DropsAt(ranked: seq<Hit>, p: seq<int>, capped: nat, diversity: bool, dropped: seq<Drop>) {
    && |dropped| == |p|
    && forall k :: 0 <= k < |p| ==>
         && 0 <= p[k] < |ranked|
         && var h := ranked[p[k]];
            dropped[k] == Drop(h.record.recordId, h.record.kind, h.score, h.breakdown, p[k] + 1,
                               if diversity && p[k] < capped then DisplacedByDiversity else BelowLimit)
  }

  lemma {:induction false} CountKeptAt(ranked: seq<Hit>, p: seq<int>, capped: nat, hits: seq<RankedHit>)
    requires HitsAt(ranked, p, capped, true, hits) && |ranked| > capped
    ensures CountKept(hits) == |p| - CountBelow(p, capped)
  {
    if p != [] {
      CountKeptAt(ranked, p[..|p| - 1], capped, hits[..|hits| - 1]);
    }
  }

  lemma {:induction false} CountDisplacedAt(ranked: seq<Hit>, p: seq<int>, capped: nat, dropped: seq<Drop>)
    requires DropsAt(ranked, p, capped, true, dropped)
    ensures CountDisplaced(dropped) == CountBelow(p, capped)
  {
    if p != [] {
      CountDisplacedAt(ranked, p[..|p| - 1], capped, dropped[..|dropped| - 1]);
    }
  }

  lemma {:induction false} NoneMarked(ranked: seq<Hit>, p: seq<int>, q: seq<int>, capped: nat, diversity: bool,
                                      hits: seq<RankedHit>, dropped: seq<Drop>)
    requires HitsAt(ranked, p, capped, diversity, hits) && DropsAt(ranked, q, capped, diversity, dropped)
    requires !diversity || |ranked| <= capped
    requires diversity ==> q == []
    ensures CountKept(hits) == 0 == CountDisplaced(dropped)
  {
    if hits != [] {
      NoneMarked(ranked, p[..|p| - 1], q, capped, diversity, hits[..|hits| - 1], dropped);
    } else if dropped != [] {
      NoneMarked(ranked, p, q[..|q| - 1], capped, diversity, hits, dropped[..|dropped| - 1]);
    }
  }

  /** Diversity trades one for one: a hit is kept for it exactly when another is displaced. */
  lemma KeptEqualsDisplaced(ranked: seq<Hit>, picks: set<int>, capped: nat, diversity: bool,
                            hits: seq<RankedHit>, dropped: seq<Drop>)
    requires Selection(ranked, picks, capped, diversity) && picks <= UpTo(|ranked|)
    requires HitsAt(ranked, Positions(picks, |ranked|), capped, diversity, hits)
    requires DropsAt(ranked, Positions(UpTo(|ranked|) - picks, |ranked|), capped, diversity, dropped)
    ensures CountKept(hits) == CountDisplaced(dropped)
  {
    var n, rest := |ranked|, UpTo(|ranked|) - picks;
    var p, q := Positions(picks, n), Positions(rest, n);
    PickedOrPassed(picks, rest, n, capped);
    PositionsCount(picks, n);
    if diversity && n > capped {
      CountKeptAt(ranked, p, capped, hits);
      CountDisplacedAt(ranked, q, capped, dropped);
    } else {
      NoneMarked(ranked, p, q, capped, diversity, hits, dropped);
    }
  }

  // ------------------------------------------------------------------- rankHits

  method RankOf(ranked: seq<Hit>) returns (rankOf: map<string, nat>)
    requires DistinctHits(ranked)
    ensures RanksGiven(ranked, rankOf)
  {
    rankOf := map[];
    for i := 0 to |ranked|
      invariant forall j :: 0 <= j < i ==> ranked[j].record.recordId in rankOf && rankOf[ranked[j].record.recordId] == j + 1
    {
      rankOf := rankOf[ranked[i].record.recordId := i + 1];
    }
  }

  /** The hits in front of a cut keep their order when they are sorted again. */
  lemma SortOfPicked(ranked: seq<Hit>, p: seq<int>)
    requires SortedHits(ranked)
    requires forall k :: 0 <= k < |p| ==> 0 <= p[k] < |ranked|
    requires forall k, l :: 0 <= k < l < |p| ==> p[k] < p[l]
    ensures Sort(At(ranked, p)) == At(ranked, p)
  {
    SortIdentity(At(ranked, p));
  }

  /**
   * What `rankHits` returns, for any ranked list: the picked hits and the other
   * hits, each in ranked order, with their ranks and the reasons.
   */
  ghost predicate Ranked(ranked: seq<Hit>, picks: set<int>, limit: int, diversity: bool,
                         hits: seq<RankedHit>, dropped: seq<Drop>) {
    && Selection(ranked, picks, Max(0, limit), diversity) && picks <= UpTo(|ranked|)
    && HitsAt(ranked, Positions(picks, |ranked|), Max(0, limit), diversity, hits)
    && DropsAt(ranked, Positions(UpTo(|ranked|) - picks, |ranked|), Max(0, limit), diversity, dropped)
  }

  method RankHits(ranked: seq<Hit>, limit: int, diversity: bool) returns (hits: seq<RankedHit>, dropped: seq<Drop>)
    requires SortedHits(ranked) && DistinctHits(ranked)
    ensures exists picks :: Ranked(ranked, picks, limit, diversity, hits, dropped)
  {
    var capped := Max(0, limit);
    var rankOf := RankOf(ranked);
    ghost var picks;
    var chosen;
    chosen, picks := Choose(ranked, capped, diversity);
    hits := TakeChosen(ranked, chosen, rankOf, capped, diversity, picks);
    dropped := TakeDropped(ranked, chosen, rankOf, capped, diversity, picks);
    assert Ranked(ranked, picks, limit, diversity, hits, dropped);
  }

  ghost predicate RanksGiven(ranked: seq<Hit>, rankOf: map<string, nat>) {
    forall i :: 0 <= i < |ranked| ==> ranked[i].record.recordId in rankOf && rankOf[ranked[i].record.recordId] == i + 1
  }

  /** filter, sort, map. */
  method TakeChosen(ranked: seq<Hit>, chosen: set<string>, rankOf: map<string, nat>, capped: nat, diversity: bool,
                    ghost picks: set<int>) returns (hits: seq<RankedHit>)
    requires SortedHits(ranked) && Names(ranked, picks, chosen) && RanksGiven(ranked, rankOf)
    ensures HitsAt(ranked, Positions(picks, |ranked|), capped, diversity, hits)
  {
    ghost var p := Positions(picks, |ranked|);
    PositionsAre(picks, |ranked|);
    FilterIsAt(ranked, chosen, true, picks, |ranked|);
    assert ranked[..|ranked|] == ranked;
    SortOfPicked(ranked, p);
    hits := AttachRanks(ranked, Sort(Filter(ranked, chosen, true)), rankOf, capped, diversity, p);
  }

  method AttachRanks(ranked: seq<Hit>, sorted: seq<Hit>, rankOf: map<string, nat>, capped: nat, diversity: bool,
                     ghost p: seq<int>) returns (hits: seq<RankedHit>)
    requires RanksGiven(ranked, rankOf) && |sorted| == |p|
    requires forall k :: 0 <= k < |p| ==> 0 <= p[k] < |ranked| && sorted[k] == ranked[p[k]]
    ensures HitsAt(ranked, p, capped, diversity, hits)
  {
    hits := [];
    for k := 0 to |sorted|
      invariant |hits| == k
      invariant forall j :: 0 <= j < k ==>
                  hits[j] == RankedHit(sorted[j], p[j] + 1, diversity && |ranked| > capped && p[j] >= capped, j + 1)
    {
      var id := sorted[k].record.recordId;
      assert id in rankOf && rankOf[id] == p[k] + 1;
      hits := hits + [RankedHit(sorted[k], rankOf[id], diversity && |ranked| > capped && rankOf[id] > capped, k + 1)];
    }
  }

  method MakeDrop(ranked: seq<Hit>, h: Hit, rankOf: map<string, nat>, ghost i: nat, capped: nat, diversity: bool) returns (drop: Drop)
    requires RanksGiven(ranked, rankOf) && i < |ranked| && h == ranked[i]
    ensures drop == DropOf(ranked[i], i + 1, capped, diversity)
  {
    drop := DropOf(h, rankOf[h.record.recordId], capped, diversity);
  }

  method TakeDropped(ranked: seq<Hit>, chosen: set<string>, rankOf: map<string, nat>, capped: nat, diversity: bool,
                     ghost picks: set<int>) returns (dropped: seq<Drop>)
    requires Names(ranked, picks, chosen) && RanksGiven(ranked, rankOf)
    ensures DropsAt(ranked, Positions(UpTo(|ranked|) - picks, |ranked|), capped, diversity, dropped)
  {
    ghost var p := Positions(UpTo(|ranked|) - picks, |ranked|);
    FilterIsAt(ranked, chosen, false, UpTo(|ranked|) - picks, |ranked|);
    assert ranked[..|ranked|] == ranked;
    dropped := DropAll(ranked, Filter(ranked, chosen, false), rankOf, p, capped, diversity);
  }

  method DropAll(ranked: seq<Hit>, rest: seq<Hit>, rankOf: map<string, nat>, ghost p: seq<int>, capped: nat, diversity: bool)
    returns (dropped: seq<Drop>)
    requires RanksGiven(ranked, rankOf) && |rest| == |p|
    requires forall k :: 0 <= k < |p| ==> 0 <= p[k] < |ranked| && rest[k] == ranked[p[k]]
    ensures DropsAt(ranked, p, capped, diversity, dropped)
  {
    dropped := [];
    for k := 0 to |rest|
      invariant |dropped| == k
      invariant forall j :: 0 <= j < k ==> dropped[j] == DropOf(ranked[p[j]], p[j] + 1, capped, diversity)
    {
      var drop := MakeDrop(ranked, rest[k], rankOf, p[k], capped, diversity);
      dropped := dropped + [drop];
    }
  }

  function DropOf(h: Hit, rank: nat, capped: nat, diversity: bool): Drop {
    Drop(h.record.recordId, h.record.kind, h.score, h.breakdown, rank,
         if diversity && rank <= capped then DisplacedByDiversity else BelowLimit)
  }

  // ------------------------------------------------- what the result accounts for

  /** Sizes add up; ranks only improve and keep their order; diversity trades one for one. */
  lemma RankHitsAccounts(ranked: seq<Hit>, picks: set<int>, limit: int, diversity: bool,
                         hits: seq<RankedHit>, dropped: seq<Drop>)
    requires Ranked(ranked, picks, limit, diversity, hits, dropped)
    ensures |hits| == Min(Max(0, limit), |ranked|) && |hits| + |dropped| == |ranked|
    ensures forall k :: 0 <= k < |hits| ==> hits[k].finalRank == k + 1 <= hits[k].rankBeforeSelection
    ensures forall k, l :: 0 <= k < l < |hits| ==> hits[k].rankBeforeSelection < hits[l].rankBeforeSelection
    ensures CountKept(hits) == CountDisplaced(dropped)
  {
    var n, capped := |ranked|, Max(0, limit);
    KeptEqualsDisplaced(ranked, picks, capped, diversity, hits, dropped);
    PositionSizes(picks, n);
    PositionsAre(picks, n);
    SelectionSize(ranked, picks, capped, diversity);
    RanksOfHits(ranked, Positions(picks, n), capped, diversity, hits);
  }

  lemma PositionSizes(picks: set<int>, n: nat)
    requires picks <= UpTo(n)
    ensures |Positions(picks, n)| == |picks|
    ensures |Positions(picks, n)| + |Positions(UpTo(n) - picks, n)| == n
  {
    PositionsCount(picks, n);
    PickedOrPassed(picks, UpTo(n) - picks, n, 0);
  }

  lemma SelectionSize(ranked: seq<Hit>, picks: set<int>, capped: nat, diversity: bool)
    requires Selection(ranked, picks, capped, diversity)
    ensures |picks| == Min(capped, |ranked|)
  {
  }

  lemma RanksOfHits(ranked: seq<Hit>, p: seq<int>, capped: nat, diversity: bool, hits: seq<RankedHit>)
    requires HitsAt(ranked, p, capped, diversity, hits)
    requires forall k :: 0 <= k < |p| ==> k <= p[k]
    requires forall k, l :: 0 <= k < l < |p| ==> p[k] < p[l]
    ensures forall k :: 0 <= k < |hits| ==> hits[k].finalRank == k + 1 <= hits[k].rankBeforeSelection
    ensures forall k, l :: 0 <= k < l < |hits| ==> hits[k].rankBeforeSelection < hits[l].rankBeforeSelection
  {
  }

  /** Every input hit is returned or dropped, never both, under its own rank. */
  lemma RankHitsPartition(ranked: seq<Hit>, picks: set<int>, limit: int, diversity: bool,
                          hits: seq<RankedHit>, dropped: seq<Drop>, i: nat)
    requires Ranked(ranked, picks, limit, diversity, hits, dropped) && i < |ranked|
    ensures i in picks <==> exists k :: 0 <= k < |hits| && hits[k].rankBeforeSelection == i + 1 && hits[k].hit == ranked[i]
    ensures i !in picks <==> exists k :: 0 <= k < |dropped| && dropped[k].rankBeforeSelection == i + 1
  {
    HitAtRank(ranked, picks, Max(0, limit), diversity, hits, i);
    DropAtRank(ranked, UpTo(|ranked|) - picks, Max(0, limit), diversity, dropped, i);
  }

  lemma HitAtRank(ranked: seq<Hit>, picks: set<int>, capped: nat, diversity: bool, hits: seq<RankedHit>, i: nat)
    requires HitsAt(ranked, Positions(picks, |ranked|), capped, diversity, hits) && i < |ranked|
    ensures i in picks <==> exists k :: 0 <= k < |hits| && hits[k].rankBeforeSelection == i + 1 && hits[k].hit == ranked[i]
  {
    PositionsAre(picks, |ranked|);
    if i in picks {
      var k :| 0 <= k < |Positions(picks, |ranked|)| && Positions(picks, |ranked|)[k] == i;
      assert hits[k].hit == ranked[i];
    }
  }

  lemma DropAtRank(ranked: seq<Hit>, rest: set<int>, capped: nat, diversity: bool, dropped: seq<Drop>, i: nat)
    requires DropsAt(ranked, Positions(rest, |ranked|), capped, diversity, dropped) && i < |ranked|
    ensures i in rest <==> exists k :: 0 <= k < |dropped| && dropped[k].rankBeforeSelection == i + 1
  {
    PositionsAre(rest, |ranked|);
    RankDropped(ranked, Positions(rest, |ranked|), capped, diversity, dropped, i);
  }

  lemma RankDropped(ranked: seq<Hit>, p: seq<int>, capped: nat, diversity: bool, dropped: seq<Drop>, i: nat)
    requires DropsAt(ranked, p, capped, diversity, dropped)
    ensures i in p <==> exists k :: 0 <= k < |dropped| && dropped[k].rankBeforeSelection == i + 1
  {
    if i in p {
      var k :| 0 <= k < |p| && p[k] == i;
      assert dropped[k].rankBeforeSelection == i + 1;
    }
  }

  lemma FirstPicked(ranked: seq<Hit>, picks: set<int>, capped: nat, diversity: bool)
    requires Selection(ranked, picks, capped, diversity) && picks <= UpTo(|ranked|) && capped >= 1 && ranked != []
    ensures 0 in picks
  {
    if diversity && |ranked| > capped {
      FirstOfDiverse(ranked, picks, capped);
    }
  }

  lemma FirstOfDiverse(ranked: seq<Hit>, picks: set<int>, capped: nat)
    requires DiverseSelection(ranked, picks, capped) && 1 <= capped < |ranked|
    ensures 0 in picks
  {
    assert IsLeader(ranked, 0);
    assert |picks| >= 1;
    var i := Missing(picks, {});
    assert i == 0 || 0 in picks;
  }

  /** With room for one hit, the best one is kept. */
  lemma FirstHitKept(ranked: seq<Hit>, picks: set<int>, limit: int, diversity: bool, hits: seq<RankedHit>, dropped: seq<Drop>)
    requires Ranked(ranked, picks, limit, diversity, hits, dropped) && limit >= 1 && ranked != []
    ensures hits != [] && hits[0].hit == ranked[0]
  {
    FirstPicked(ranked, picks, Max(0, limit), diversity);
    PositionsAre(picks, |ranked|);
    var p := Positions(picks, |ranked|);
    var k :| 0 <= k < |p| && p[k] == 0;
  }

  // ------------------------------------------------------------------ optimality

  /** Total score of the selected hits among the first `n`. */
  function Score(ranked: seq<Hit>, picks: set<int>, n: nat): real
    requires n <= |ranked|
  {
    if n == 0 then 0.0
    else Score(ranked, picks, n - 1) + if n - 1 in picks then ranked[n - 1].score else 0.0
  }

  lemma {:induction false} ScoreSwapped(ranked: seq<Hit>, picks: set<int>, drop: int, add: int, n: nat)
    requires n <= |ranked| && 0 <= drop < |ranked| && 0 <= add < |ranked|
    requires drop in picks && add !in picks
    ensures Score(ranked, picks - {drop} + {add}, n) ==
            Score(ranked, picks, n) - (if drop < n then ranked[drop].score else 0.0) + (if add < n then ranked[add].score else 0.0)
  {
    if n > 0 {
      ScoreSwapped(ranked, picks, drop, add, n - 1);
    }
  }

  ghost predicate HasKind(ranked: seq<Hit>, picks: set<int>, kind: Kind) {
    exists t :: t in picks && 0 <= t < |ranked| && ranked[t].record.kind == kind
  }

  /** Every kind that occurs in the list occurs in the selection. */
  ghost predicate CoversKinds(ranked: seq<Hit>, picks: set<int>) {
    forall kind :: kind in Kinds(ranked, |ranked|) ==> HasKind(ranked, picks, kind)
  }

  lemma BetterRankScores(ranked: seq<Hit>, i: int, j: int)
    requires SortedHits(ranked) && 0 <= i <= j < |ranked|
    ensures ranked[i].score >= ranked[j].score
  {
    if i < j {
      assert Before(ranked[i], ranked[j]);
    }
  }

  /** Replacing a hit by the leader of its kind loses no score and no kind. */
  lemma {:induction false} WithLeaders(ranked: seq<Hit>, picks: set<int>) returns (better: set<int>)
    requires SortedHits(ranked) && picks <= UpTo(|ranked|) && CoversKinds(ranked, picks)
    ensures better <= UpTo(|ranked|) && |better| == |picks| && Leaders(ranked, |ranked|) <= better
    ensures Score(ranked, better, |ranked|) >= Score(ranked, picks, |ranked|)
    decreases |Leaders(ranked, |ranked|) - picks|
  {
    var n, leaders := |ranked|, Leaders(ranked, |ranked|);
    LeadersAre(ranked, n);
    if leaders <= picks {
      better := picks;
    } else {
      var leader := Missing(leaders, picks);
      KindsSeen(ranked, n, leader);
      assert HasKind(ranked, picks, ranked[leader].record.kind);
      var t :| t in picks && 0 <= t < n && ranked[t].record.kind == ranked[leader].record.kind;
      LeaderIsFirst(ranked, leader, t);
      var swapped := picks - {t} + {leader};
      LeaderSwapped(ranked, picks, t, leader);
      better := WithLeaders(ranked, swapped);
    }
  }

  lemma LeaderSwapped(ranked: seq<Hit>, picks: set<int>, t: int, leader: int)
    requires SortedHits(ranked) && picks <= UpTo(|ranked|) && CoversKinds(ranked, picks)
    requires t in picks && leader !in picks && 0 <= leader < t < |ranked|
    requires IsLeader(ranked, leader) && !IsLeader(ranked, t) && ranked[t].record.kind == ranked[leader].record.kind
    ensures var swapped := picks - {t} + {leader};
            && swapped <= UpTo(|ranked|) && |swapped| == |picks| && CoversKinds(ranked, swapped)
            && Score(ranked, swapped, |ranked|) >= Score(ranked, picks, |ranked|)
            && |Leaders(ranked, |ranked|) - swapped| < |Leaders(ranked, |ranked|) - picks|
  {
    var leaders, swapped := Leaders(ranked, |ranked|), picks - {t} + {leader};
    LeadersAre(ranked, |ranked|);
    ScoreSwapped(ranked, picks, t, leader, |ranked|);
    BetterRankScores(ranked, leader, t);
    SwapCovers(ranked, picks, t, leader);
    assert leaders - swapped == (leaders - picks) - {leader};
  }

  lemma LeaderIsFirst(ranked: seq<Hit>, leader: int, t: int)
    requires 0 <= leader < |ranked| && 0 <= t < |ranked| && IsLeader(ranked, leader)
    requires ranked[t].record.kind == ranked[leader].record.kind
    ensures leader <= t && (t != leader ==> !IsLeader(ranked, t))
  {
    if t < leader {
      KindsSeen(ranked, leader, t);
    } else if leader < t {
      KindsSeen(ranked, t, leader);
    }
  }

  lemma SwapCovers(ranked: seq<Hit>, picks: set<int>, t: int, leader: int)
    requires CoversKinds(ranked, picks) && 0 <= t < |ranked| && 0 <= leader < |ranked|
    requires ranked[t].record.kind == ranked[leader].record.kind
    ensures CoversKinds(ranked, picks - {t} + {leader})
  {
    var swapped := picks - {t} + {leader};
    forall kind | kind in Kinds(ranked, |ranked|)
      ensures HasKind(ranked, swapped, kind)
    {
      var u :| u in picks && 0 <= u < |ranked| && ranked[u].record.kind == kind;
      assert (if u == t then leader else u) in swapped;
    }
  }

  /** Among selections that contain every leader, filling up in ranked order is best. */
  lemma {:induction false} FillingIsBest(ranked: seq<Hit>, best: set<int>, picks: set<int>, capped: nat)
    requires SortedHits(ranked) && DiverseSelection(ranked, best, capped) && Leaders(ranked, |ranked|) <= best
    requires picks <= UpTo(|ranked|) && |picks| == capped && Leaders(ranked, |ranked|) <= picks
    ensures Score(ranked, picks, |ranked|) <= Score(ranked, best, |ranked|)
    decreases |picks - best|
  {
    var n := |ranked|;
    LeadersAre(ranked, n);
    if picks <= best {
      SubsetOfSameSize(picks, best);
    } else {
      var t := Missing(picks, best);
      var s := SomethingMissing(best, picks, t);
      assert s < t;
      ScoreSwapped(ranked, picks, t, s, n);
      BetterRankScores(ranked, s, t);
      var swapped := picks - {t} + {s};
      assert swapped - best == (picks - best) - {t};
      FillingIsBest(ranked, best, swapped, capped);
    }
  }

  lemma SomethingMissing(best: set<int>, picks: set<int>, t: int) returns (s: int)
    requires |best| == |picks| && t in picks && t !in best
    ensures s in best && s !in picks
  {
    if best <= picks {
      SubsetOfSameSize(best, picks);
      assert false;
    }
    s := Missing(best, picks);
  }

  lemma {:induction false} LeadersFit(ranked: seq<Hit>, best: set<int>, capped: nat)
    requires DiverseSelection(ranked, best, capped) && |Kinds(ranked, |ranked|)| <= capped
    ensures Leaders(ranked, |ranked|) <= best
  {
    var leaders := Leaders(ranked, |ranked|);
    LeadersAre(ranked, |ranked|);
    OneLeaderPerKind(ranked, |ranked|);
    if l :| l in leaders && l !in best {
      assert best <= leaders - {l};
      SubsetSize(best, leaders - {l});
      assert false;
    }
  }

  /**
   * With a limit of at least the number of kinds, no selection of the same size
   * that covers every kind has a larger total score.
   */
  lemma SelectionIsOptimal(ranked: seq<Hit>, best: set<int>, picks: set<int>, capped: nat)
    requires SortedHits(ranked) && Selection(ranked, best, capped, true) && |Kinds(ranked, |ranked|)| <= capped
    requires picks <= UpTo(|ranked|) && |picks| == |best| && CoversKinds(ranked, picks)
    ensures Score(ranked, picks, |ranked|) <= Score(ranked, best, |ranked|)
  {
    if |ranked| <= capped {
      SubsetOfSameSize(picks, best);
    } else {
      LeadersFit(ranked, best, capped);
      var better := WithLeaders(ranked, picks);
      FillingIsBest(ranked, best, better, capped);
    }
  }

  /** And the selection itself covers every kind, so it is a maximum of what it is compared with. */
  lemma SelectionCovers(ranked: seq<Hit>, best: set<int>, capped: nat)
    requires Selection(ranked, best, capped, true) && |Kinds(ranked, |ranked|)| <= capped
    ensures CoversKinds(ranked, best)
  {
    LeadersAre(ranked, |ranked|);
    if |ranked| > capped {
      LeadersFit(ranked, best, capped);
    }
    forall kind | kind in Kinds(ranked, |ranked|)
      ensures HasKind(ranked, best, kind)
    {
      var leader := LeaderOf(ranked, |ranked|, kind);
      assert leader in best;
    }
  }

  // ------------------------------------------- when there are more kinds than room

  /** No two picks are of one kind. */
  ghost predicate OneOfEachKind(ranked: seq<Hit>, picks: set<int>)
    requires picks <= UpTo(|ranked|)
  {
    forall i, j :: i in picks && j in picks && i != j ==> ranked[i].record.kind != ranked[j].record.kind
  }

  /** With no room for all kinds only leaders are picked. */
  lemma OnlyLeaders(ranked: seq<Hit>, best: set<int>, capped: nat)
    requires DiverseSelection(ranked, best, capped) && capped <= |Kinds(ranked, |ranked|)|
    ensures best <= Leaders(ranked, |ranked|)
  {
    var leaders := Leaders(ranked, |ranked|);
    OneLeaderPerKind(ranked, |ranked|);
    if !(best <= leaders) {
      var i := Missing(best, leaders);
      forall l | l in leaders
        ensures l in best - {i}
      {
        NoLeaderLeftOut(ranked, best, capped, i, l);
      }
      SubsetSize(leaders, best - {i});
      assert false;
    }
  }

  /** A pick that is no leader shows that every leader was picked. */
  lemma NoLeaderLeftOut(ranked: seq<Hit>, best: set<int>, capped: nat, i: int, l: int)
    requires DiverseSelection(ranked, best, capped) && i in best && i !in Leaders(ranked, |ranked|)
    requires l in Leaders(ranked, |ranked|)
    ensures l in best
  {
    LeadersAre(ranked, |ranked|);
  }

  lemma LeadersDiffer(ranked: seq<Hit>, picks: set<int>)
    requires picks <= UpTo(|ranked|) && picks <= Leaders(ranked, |ranked|)
    ensures OneOfEachKind(ranked, picks)
  {
    LeadersAre(ranked, |ranked|);
    forall i, j | i in picks && j in picks && i != j
      ensures ranked[i].record.kind != ranked[j].record.kind
    {
      if ranked[i].record.kind == ranked[j].record.kind {
        LeaderIsFirst(ranked, i, j);
        assert false;
      }
    }
  }

  /** Replacing a pick by the leader of its kind loses no score. */
  lemma {:induction false} AsLeaders(ranked: seq<Hit>, picks: set<int>) returns (better: set<int>)
    requires SortedHits(ranked) && picks <= UpTo(|ranked|) && OneOfEachKind(ranked, picks)
    ensures better <= Leaders(ranked, |ranked|) && |better| == |picks|
    ensures Score(ranked, better, |ranked|) >= Score(ranked, picks, |ranked|)
    decreases |picks - Leaders(ranked, |ranked|)|
  {
    var n, leaders := |ranked|, Leaders(ranked, |ranked|);
    LeadersAre(ranked, n);
    if picks <= leaders {
      better := picks;
    } else {
      var t := Missing(picks, leaders);
      KindsSeen(ranked, n, t);
      var leader := LeaderOf(ranked, n, ranked[t].record.kind);
      LeaderIsFirst(ranked, leader, t);
      KindSwapped(ranked, picks, t, leader);
      var swapped := picks - {t} + {leader};
      assert swapped - leaders == (picks - leaders) - {t};
      better := AsLeaders(ranked, swapped);
    }
  }

  lemma KindSwapped(ranked: seq<Hit>, picks: set<int>, t: int, leader: int)
    requires SortedHits(ranked) && picks <= UpTo(|ranked|) && OneOfEachKind(ranked, picks)
    requires t in picks && 0 <= leader < t && ranked[t].record.kind == ranked[leader].record.kind
    ensures var swapped := picks - {t} + {leader};
            && swapped <= UpTo(|ranked|) && |swapped| == |picks| && OneOfEachKind(ranked, swapped)
            && Score(ranked, swapped, |ranked|) >= Score(ranked, picks, |ranked|)
  {
    assert leader !in picks;
    ScoreSwapped(ranked, picks, t, leader, |ranked|);
    BetterRankScores(ranked, leader, t);
  }

  /** Among sets of leaders of one size the first ones score best. */
  lemma {:induction false} FirstLeadersAreBest(ranked: seq<Hit>, best: set<int>, picks: set<int>, capped: nat)
    requires SortedHits(ranked) && DiverseSelection(ranked, best, capped) && best <= Leaders(ranked, |ranked|)
    requires picks <= Leaders(ranked, |ranked|) && |picks| == capped
    ensures Score(ranked, picks, |ranked|) <= Score(ranked, best, |ranked|)
    decreases |picks - best|
  {
    var n := |ranked|;
    LeadersAre(ranked, n);
    if picks <= best {
      SubsetOfSameSize(picks, best);
    } else {
      var t := Missing(picks, best);
      var s := SomethingMissing(best, picks, t);
      assert s < t;
      ScoreSwapped(ranked, picks, t, s, n);
      BetterRankScores(ranked, s, t);
      var swapped := picks - {t} + {s};
      assert swapped - best == (picks - best) - {t};
      FirstLeadersAreBest(ranked, best, swapped, capped);
    }
  }

  /**
   * With a limit of at most the number of kinds, the selection takes one hit of as
   * many kinds as fit, and no other selection of that size without two hits of one
   * kind has a larger total score.
   */
  lemma TightSelectionIsOptimal(ranked: seq<Hit>, best: set<int>, picks: set<int>, capped: nat)
    requires SortedHits(ranked) && Selection(ranked, best, capped, true) && capped <= |Kinds(ranked, |ranked|)|
    requires best <= UpTo(|ranked|) && picks <= UpTo(|ranked|) && |picks| == |best| && OneOfEachKind(ranked, picks)
    ensures OneOfEachKind(ranked, best)
    ensures Score(ranked, picks, |ranked|) <= Score(ranked, best, |ranked|)
  {
    if |ranked| <= capped {
      SubsetOfSameSize(picks, best);
    } else {
      OnlyLeaders(ranked, best, capped);
      LeadersDiffer(ranked, best);
      var better := AsLeaders(ranked, picks);
      FirstLeadersAreBest(ranked, best, better, capped);
    }
  }
}
