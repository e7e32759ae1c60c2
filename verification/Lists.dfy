// `Array.prototype.filter` and the stable `Array.prototype.sort` with a comparison.

module Lists {

  type Order<!T> = (T, T) -> bool

  /** `x` goes in front of the first element that is not before it. */
  function Insert<T>(before: Order<T>, x: T, sorted: seq<T>): seq<T> {
    if sorted == [] then [x]
    else if before(sorted[0], x) then [sorted[0]] + Insert(before, x, sorted[1..])
    else [x] + sorted
  }

  function Sort<T>(before: Order<T>, s: seq<T>): seq<T> {
    if s == [] then [] else Insert(before, s[0], Sort(before, s[1..]))
  }

  /** No element comes before an earlier one. */
  ghost predicate InOrder<T>(before: Order<T>, s: seq<T>) {
    forall i, j :: 0 <= i < j < |s| ==> !before(s[j], s[i])
  }

  /** A comparison without contradictions: never both ways, and "not after" is transitive. */
  ghost predicate IsOrderOn<T>(before: Order<T>, s: seq<T>) {
    && (forall a, b :: a in s && b in s ==> !(before(a, b) && before(b, a)))
    && (forall a, b, c :: a in s && b in s && c in s && !before(b, a) && !before(c, b) ==> !before(c, a))
  }

  ghost predicate IsTotalOn<T>(before: Order<T>, s: seq<T>) {
    forall a, b :: a in s && b in s ==> a == b || before(a, b) || before(b, a)
  }

  lemma {:induction false} InsertKeeps<T>(before: Order<T>, x: T, sorted: seq<T>)
    ensures multiset(Insert(before, x, sorted)) == multiset(sorted) + multiset{x}
    ensures |Insert(before, x, sorted)| == |sorted| + 1
  {
    if sorted != [] {
      assert sorted == [sorted[0]] + sorted[1..];
      InsertKeeps(before, x, sorted[1..]);
    }
  }

  lemma {:induction false} SortPermutes<T>(before: Order<T>, s: seq<T>)
    ensures multiset(Sort(before, s)) == multiset(s)
    ensures |Sort(before, s)| == |s|
  {
    if s != [] {
      assert s == [s[0]] + s[1..];
      SortPermutes(before, s[1..]);
      InsertKeeps(before, s[0], Sort(before, s[1..]));
    }
  }

  lemma SortHas<T>(before: Order<T>, s: seq<T>, x: T)
    ensures x in Sort(before, s) <==> x in s
  {
    SortPermutes(before, s);
    assert x in multiset(Sort(before, s)) <==> x in multiset(s);
  }

  lemma InsertHas<T>(before: Order<T>, x: T, sorted: seq<T>, y: T)
    ensures y in Insert(before, x, sorted) <==> y == x || y in sorted
  {
    InsertKeeps(before, x, sorted);
    assert y in multiset(Insert(before, x, sorted)) <==> y in multiset(sorted) + multiset{x};
  }

  lemma {:induction false} InsertSorts<T>(before: Order<T>, x: T, sorted: seq<T>)
    requires InOrder(before, sorted) && IsOrderOn(before, [x] + sorted)
    ensures InOrder(before, Insert(before, x, sorted))
  {
    if sorted == [] {
    } else if before(sorted[0], x) {
      Weaken(before, [x] + sorted, [x] + sorted[1..]);
      InsertSorts(before, x, sorted[1..]);
      var rest := Insert(before, x, sorted[1..]);
      forall j | 0 <= j < |rest|
        ensures !before(rest[j], sorted[0])
      {
        InsertHas(before, x, sorted[1..], rest[j]);
        assert x in [x] + sorted && sorted[0] in [x] + sorted;
        if rest[j] != x {
          assert rest[j] in sorted[1..];
          var k :| 0 <= k < |sorted[1..]| && sorted[1..][k] == rest[j];
        }
      }
    } else {
      forall j | 0 <= j < |sorted|
        ensures !before(sorted[j], x)
      {
        assert x in [x] + sorted && sorted[0] in [x] + sorted && sorted[j] in [x] + sorted;
      }
    }
  }

  lemma Weaken<T>(before: Order<T>, s: seq<T>, t: seq<T>)
    requires IsOrderOn(before, s) && forall x :: x in t ==> x in s
    ensures IsOrderOn(before, t)
  {
  }

  lemma {:induction false} SortSorts<T>(before: Order<T>, s: seq<T>)
    requires IsOrderOn(before, s)
    ensures InOrder(before, Sort(before, s))
  {
    if s != [] {
      Weaken(before, s, s[1..]);
      SortSorts(before, s[1..]);
      var next := [s[0]] + Sort(before, s[1..]);
      forall x | x in next
        ensures x in s
      {
        SortHas(before, s[1..], x);
        assert x == s[0] || x in s[1..];
      }
      Weaken(before, s, next);
      InsertSorts(before, s[0], Sort(before, s[1..]));
    }
  }

  /** Sorting a list that is already in order changes nothing. */
  lemma {:induction false} SortIdentity<T>(before: Order<T>, s: seq<T>)
    requires InOrder(before, s)
    ensures Sort(before, s) == s
  {
    if s != [] {
      SortIdentity(before, s[1..]);
      assert s == [s[0]] + s[1..];
    }
  }

  /** Two places of a list, in this order. */
  ghost predicate InThisOrder<T>(s: seq<T>, a: T, b: T) {
    exists i, j :: 0 <= i < j < |s| && s[i] == a && s[j] == b
  }

  lemma {:induction false} InsertIsStable<T>(before: Order<T>, x: T, sorted: seq<T>, i: nat, j: nat)
    requires i < j < |Insert(before, x, sorted)| && !before(Insert(before, x, sorted)[i], Insert(before, x, sorted)[j])
    ensures var r := Insert(before, x, sorted);
            InThisOrder(sorted, r[i], r[j]) || (r[i] == x && r[j] in sorted)
  {
    var r := Insert(before, x, sorted);
    if sorted == [] {
    } else if before(sorted[0], x) {
      if i == 0 {
        InsertHas(before, x, sorted[1..], r[j]);
        assert r[j] in r[1..];
        var k :| 0 <= k < |sorted[1..]| && sorted[1..][k] == r[j];
        assert sorted[0] == r[0] && sorted[k + 1] == r[j];
      } else {
        InsertIsStable(before, x, sorted[1..], i - 1, j - 1);
        OrderInTail(sorted, r[i], r[j]);
      }
    } else if i > 0 {
      assert sorted[i - 1] == r[i] && sorted[j - 1] == r[j];
    }
  }

  lemma OrderInTail<T>(s: seq<T>, a: T, b: T)
    requires s != []
    ensures InThisOrder(s[1..], a, b) ==> InThisOrder(s, a, b)
    ensures b in s[1..] ==> b in s && InThisOrder(s, s[0], b)
  {
    if i, j :| 0 <= i < j < |s[1..]| && s[1..][i] == a && s[1..][j] == b {
      assert s[i + 1] == a && s[j + 1] == b;
    }
    if k :| 0 <= k < |s[1..]| && s[1..][k] == b {
      assert s[0] == s[0] && s[k + 1] == b;
    }
  }

  /** Elements that are not before one another stay in the order in which they came. */
  lemma {:induction false} SortIsStable<T>(before: Order<T>, s: seq<T>, i: nat, j: nat)
    requires i < j < |Sort(before, s)| && !before(Sort(before, s)[i], Sort(before, s)[j])
    ensures InThisOrder(s, Sort(before, s)[i], Sort(before, s)[j])
  {
    var rest := Sort(before, s[1..]);
    var a, b := Sort(before, s)[i], Sort(before, s)[j];
    InsertIsStable(before, s[0], rest, i, j);
    if x, y :| 0 <= x < y < |rest| && rest[x] == a && rest[y] == b {
      SortIsStable(before, s[1..], x, y);
    } else {
      SortHas(before, s[1..], b);
    }
    OrderInTail(s, a, b);
  }

  lemma {:induction false} FilterKeepsOrder<T>(keep: T -> bool, s: seq<T>, i: nat, j: nat)
    requires i < j < |Filter(keep, s)|
    ensures InThisOrder(s, Filter(keep, s)[i], Filter(keep, s)[j])
  {
    var a, b := Filter(keep, s)[i], Filter(keep, s)[j];
    if keep(s[0]) {
      if i == 0 {
        assert b == Filter(keep, s[1..])[j - 1];
        FilterHas(keep, s[1..], b);
      } else {
        FilterKeepsOrder(keep, s[1..], i - 1, j - 1);
      }
    } else {
      FilterKeepsOrder(keep, s[1..], i, j);
    }
    OrderInTail(s, a, b);
  }

  /** A total order leaves no choice: two ordered lists of the same elements are the same list. */
  lemma {:induction false} OrderedIsUnique<T>(before: Order<T>, a: seq<T>, b: seq<T>)
    requires InOrder(before, a) && InOrder(before, b) && multiset(a) == multiset(b)
    requires IsTotalOn(before, a)
    ensures a == b
  {
    if a == [] {
      assert |multiset(b)| == 0;
    } else {
      assert a[0] in multiset(b);
      assert b != [] && b[0] in multiset(a);
      SameHead(before, a, b);
      TailLacksHead(a);
      TailLacksHead(b);
      TailInOrder(before, a);
      TailInOrder(before, b);
      TailTotal(before, a);
      OrderedIsUnique(before, a[1..], b[1..]);
      assert a == [a[0]] + a[1..] && b == [b[0]] + b[1..];
    }
  }

  lemma TailInOrder<T>(before: Order<T>, s: seq<T>)
    requires s != [] && InOrder(before, s)
    ensures InOrder(before, s[1..])
  {
  }

  lemma TailTotal<T>(before: Order<T>, s: seq<T>)
    requires s != [] && IsTotalOn(before, s)
    ensures IsTotalOn(before, s[1..])
  {
    forall a, b | a in s[1..] && b in s[1..]
      ensures a == b || before(a, b) || before(b, a)
    {
      assert a in s && b in s;
    }
  }

  lemma TailLacksHead<T>(s: seq<T>)
    requires s != []
    ensures multiset(s[1..]) == multiset(s) - multiset{s[0]}
  {
    assert s == [s[0]] + s[1..];
  }

  lemma SameHead<T>(before: Order<T>, a: seq<T>, b: seq<T>)
    requires InOrder(before, a) && InOrder(before, b) && IsTotalOn(before, a)
    requires a != [] && b != [] && a[0] in b && b[0] in a
    ensures a[0] == b[0]
  {
    var i :| 0 <= i < |a| && a[i] == b[0];
    var j :| 0 <= j < |b| && b[j] == a[0];
  }

  lemma TwiceCounted<T>(s: seq<T>, i: nat, j: nat)
    requires i < j < |s| && s[i] == s[j]
    ensures multiset(s)[s[i]] >= 2
  {
    assert s == s[..j] + [s[j]] + s[j + 1..];
    assert s[i] in s[..j];
  }

  lemma DistinctPlaces<T>(s: seq<T>, i: nat, j: nat)
    requires i < j < |s| && multiset(s)[s[i]] <= 1
    ensures s[i] != s[j]
  {
    if s[i] == s[j] {
      TwiceCounted(s, i, j);
      assert false;
    }
  }

  lemma {:induction false} DistinctOnce<T>(s: seq<T>, x: T)
    requires forall i, j :: 0 <= i < j < |s| ==> s[i] != s[j]
    ensures multiset(s)[x] <= 1
  {
    if s != [] {
      DistinctOnce(s[1..], x);
      assert s == [s[0]] + s[1..];
      assert multiset(s[1..])[s[0]] == 0 by {
        assert s[0] !in s[1..];
      }
    }
  }

  /** Two lists without duplicates and with the same elements differ only in order. */
  lemma DistinctSame<T>(a: seq<T>, b: seq<T>)
    requires forall i, j :: 0 <= i < j < |a| ==> a[i] != a[j]
    requires forall i, j :: 0 <= i < j < |b| ==> b[i] != b[j]
    requires forall x :: x in a <==> x in b
    ensures multiset(a) == multiset(b)
  {
    forall x
      ensures multiset(a)[x] == multiset(b)[x]
    {
      DistinctOnce(a, x);
      DistinctOnce(b, x);
      assert x in a <==> x in b;
      assert x in multiset(a) <==> x in a;
      assert x in multiset(b) <==> x in b;
    }
  }

  /** A list without duplicates fits into any list that has its elements. */
  lemma {:induction false} DistinctFits<T>(a: seq<T>, b: seq<T>)
    requires forall i, j :: 0 <= i < j < |a| ==> a[i] != a[j]
    requires forall x :: x in a ==> x in b
    ensures |a| <= |b|
  {
    if a != [] {
      assert a[0] in a;
      var k :| 0 <= k < |b| && b[k] == a[0];
      var rest := b[..k] + b[k + 1..];
      forall x | x in a[1..]
        ensures x in rest
      {
        assert x in a && x in b && x != a[0];
        var m :| 0 <= m < |b| && b[m] == x;
        assert x == rest[if m < k then m else m - 1];
      }
      DistinctFits(a[1..], rest);
    }
  }

  // ----------------------------------------------------------------------- filter

  function Filter<T>(keep: T -> bool, s: seq<T>): (r: seq<T>)
    ensures |r| <= |s|
  {
    if s == [] then []
    else if keep(s[0]) then [s[0]] + Filter(keep, s[1..])
    else Filter(keep, s[1..])
  }

  lemma {:induction false} FilterHas<T>(keep: T -> bool, s: seq<T>, x: T)
    ensures x in Filter(keep, s) <==> x in s && keep(x)
  {
    if s != [] {
      FilterHas(keep, s[1..], x);
      assert s == [s[0]] + s[1..];
    }
  }

  lemma {:induction false} FilterDistinct<T>(keep: T -> bool, s: seq<T>)
    requires forall i, j :: 0 <= i < j < |s| ==> s[i] != s[j]
    ensures forall i, j :: 0 <= i < j < |Filter(keep, s)| ==> Filter(keep, s)[i] != Filter(keep, s)[j]
  {
    if s != [] {
      FilterDistinct(keep, s[1..]);
      FilterHas(keep, s[1..], s[0]);
      assert s[0] !in s[1..];
    }
  }

  /** The same elements, the same filter: the same elements again. */
  lemma FilterSame<T>(keep: T -> bool, a: seq<T>, b: seq<T>)
    requires forall i, j :: 0 <= i < j < |a| ==> a[i] != a[j]
    requires forall i, j :: 0 <= i < j < |b| ==> b[i] != b[j]
    requires forall x :: x in a <==> x in b
    ensures multiset(Filter(keep, a)) == multiset(Filter(keep, b))
    ensures |Filter(keep, a)| == |Filter(keep, b)|
  {
    var fa, fb := Filter(keep, a), Filter(keep, b);
    FilterDistinct(keep, a);
    FilterDistinct(keep, b);
    forall x
      ensures x in fa <==> x in fb
    {
      FilterHas(keep, a, x);
      FilterHas(keep, b, x);
    }
    DistinctSame(fa, fb);
    assert |multiset(fa)| == |multiset(fb)|;
  }

  /** What an ordered list has behind a cut is not before anything in front of it. */
  lemma BehindTheCut<T>(before: Order<T>, sorted: seq<T>, n: nat, x: T, y: T)
    requires n <= |sorted| && InOrder(before, sorted) && x in sorted[..n] && y in sorted && y !in sorted[..n]
    ensures !before(y, x)
  {
    var i :| 0 <= i < n && sorted[..n][i] == x;
    var j :| 0 <= j < |sorted| && sorted[j] == y;
    assert forall k :: 0 <= k < n ==> sorted[k] in sorted[..n];
    assert i < j;
  }
}
