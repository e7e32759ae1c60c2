// src/models/embeddings.ts: cosine similarity, over the reals. The square root is
// a parameter that is only assumed to be one.

module Cosine {
  import opened Support

  type Vector = seq<real>

  // ------------------------------------------------------------------- products

  /** Multiplication by name: products are compared as terms, and only the lemmas here look inside. */
  function Times(x: real, y: real): real {
    x * y
  }

  lemma TimesSigns(x: real, y: real)
    ensures (x > 0.0 && y > 0.0) || (x < 0.0 && y < 0.0) ==> Times(x, y) > 0.0
    ensures (x > 0.0 && y < 0.0) || (x < 0.0 && y > 0.0) ==> Times(x, y) < 0.0
    ensures x == 0.0 || y == 0.0 ==> Times(x, y) == 0.0
  {
    if x < 0.0 && y < 0.0 {
      assert x * y == (-x) * (-y);
    } else if x < 0.0 {
      assert x * y == -((-x) * y);
    } else if y < 0.0 {
      assert x * y == -(x * (-y));
    }
  }

  lemma SquareSign(x: real)
    ensures Times(x, x) >= 0.0
    ensures x != 0.0 ==> Times(x, x) > 0.0
  {
    TimesSigns(x, x);
  }

  lemma Distribute(p: real, s: real, t: real)
    ensures Times(p, s + t) == Times(p, s) + Times(p, t)
  {
  }

  lemma Commute(x: real, y: real)
    ensures Times(x, y) == Times(y, x)
  {
  }

  lemma Associate(x: real, y: real, z: real)
    ensures Times(x, Times(y, z)) == Times(Times(x, y), z)
  {
  }

  lemma DifferenceOfSquares(x: real, y: real)
    ensures Times(x - y, x + y) == Times(x, x) - Times(y, y)
  {
  }

  lemma LargerSquare(x: real, y: real)
    requires y >= 0.0
    ensures x > y ==> Times(x, x) > Times(y, y)
  {
    DifferenceOfSquares(x, y);
    TimesSigns(x - y, x + y);
  }

  lemma SameSquare(x: real, y: real)
    requires x >= 0.0 && y >= 0.0 && Times(x, x) == Times(y, y)
    ensures x == y
  {
    LargerSquare(x, y);
    LargerSquare(y, x);
  }

  // ------------------------------------------------------------------- the sums

  /** The sum of the products of the first `n` entries. */
  function Dot(a: Vector, b: Vector, n: nat): real
    requires n <= |a| && n <= |b|
  {
    if n == 0 then 0.0 else Dot(a, b, n - 1) + Times(a[n - 1], b[n - 1])
  }

  function Squares(a: Vector, n: nat): real
    requires n <= |a|
  {
    Dot(a, a, n)
  }

  ghost predicate IsSqrt(sqrt: real -> real) {
    forall x: real :: x >= 0.0 ==> sqrt(x) >= 0.0 && Times(sqrt(x), sqrt(x)) == x
  }

  /** The final step: without magnitude there is no similarity. */
  function Quotient(d: real, na: real, nb: real, sqrt: real -> real): real {
    if na == 0.0 || nb == 0.0 then 0.0
    else
      var m := Times(sqrt(na), sqrt(nb));
      if m == 0.0 then 0.0 else d / m
  }

  function Similarity(a: Vector, b: Vector, sqrt: real -> real): real
    requires |a| == |b|
  {
    Quotient(Dot(a, b, |a|), Squares(a, |a|), Squares(b, |b|), sqrt)
  }

  method CosineSimilarity(a: Vector, b: Vector, sqrt: real -> real) returns (r: Option<real>)
    requires IsSqrt(sqrt)
    ensures r.None? <==> |a| != |b|
    ensures r.Some? ==> r.value == Similarity(a, b, sqrt)
  {
    if |a| != |b| {
      return None;
    }
    var dot, na, nb := 0.0, 0.0, 0.0;
    for i := 0 to |a|
      invariant dot == Dot(a, b, i) && na == Squares(a, i) && nb == Squares(b, i)
    {
      var x, y := a[i], b[i];
      dot := dot + Times(x, y);
      na := na + Times(x, x);
      nb := nb + Times(y, y);
    }
    if na == 0.0 || nb == 0.0 {
      return Some(0.0);
    }
    NormsPositive(a, b, sqrt);
    r := Some(dot / Times(sqrt(na), sqrt(nb)));
  }

  lemma {:induction false} SquaresNonNegative(a: Vector, n: nat)
    requires n <= |a|
    ensures Squares(a, n) >= 0.0
    ensures forall i :: 0 <= i < n && a[i] != 0.0 ==> Squares(a, n) > 0.0
  {
    if n > 0 {
      SquaresNonNegative(a, n - 1);
      SumOfNonNegative(Squares(a, n - 1), a[n - 1]);
    }
  }

  lemma SumOfNonNegative(r: real, t: real)
    requires r >= 0.0
    ensures r + Times(t, t) >= r
    ensures t != 0.0 ==> r + Times(t, t) > 0.0
  {
    SquareSign(t);
  }

  lemma RootPositive(x: real, sqrt: real -> real)
    requires IsSqrt(sqrt) && x > 0.0
    ensures sqrt(x) > 0.0
  {
    TimesSigns(sqrt(x), sqrt(x));
  }

  lemma NormsPositive(a: Vector, b: Vector, sqrt: real -> real)
    requires IsSqrt(sqrt) && Squares(a, |a|) != 0.0 && Squares(b, |b|) != 0.0
    ensures Squares(a, |a|) > 0.0 && Squares(b, |b|) > 0.0
    ensures sqrt(Squares(a, |a|)) > 0.0 && sqrt(Squares(b, |b|)) > 0.0
    ensures Times(sqrt(Squares(a, |a|)), sqrt(Squares(b, |b|))) > 0.0
  {
    SquaresNonNegative(a, |a|);
    SquaresNonNegative(b, |b|);
    RootPositive(Squares(a, |a|), sqrt);
    RootPositive(Squares(b, |b|), sqrt);
    TimesSigns(sqrt(Squares(a, |a|)), sqrt(Squares(b, |b|)));
  }

  // ---------------------------------------------------------------- Cauchy-Schwarz

  function Term(a: Vector, b: Vector, u: real, v: real, i: nat): real
    requires i < |a| && i < |b|
  {
    Times(u, a[i]) - Times(v, b[i])
  }

  /** The sum of squares of `u * a[i] - v * b[i]`. */
  function Residue(a: Vector, b: Vector, u: real, v: real, n: nat): real
    requires n <= |a| && n <= |b|
  {
    if n == 0 then 0.0 else Residue(a, b, u, v, n - 1) + Times(Term(a, b, u, v, n - 1), Term(a, b, u, v, n - 1))
  }

  lemma {:induction false} ResidueNonNegative(a: Vector, b: Vector, u: real, v: real, n: nat)
    requires n <= |a| && n <= |b|
    ensures Residue(a, b, u, v, n) >= 0.0
    ensures forall i :: 0 <= i < n && Term(a, b, u, v, i) != 0.0 ==> Residue(a, b, u, v, n) > 0.0
  {
    if n > 0 {
      ResidueNonNegative(a, b, u, v, n - 1);
      SumOfNonNegative(Residue(a, b, u, v, n - 1), Term(a, b, u, v, n - 1));
    }
  }

  /** `u * u * p - 2 * u * v * q + v * v * r` */
  function Form(u: real, v: real, p: real, q: real, r: real): real {
    Times(Times(u, u), p) - 2.0 * Times(Times(u, v), q) + Times(Times(v, v), r)
  }

  lemma SquareOfTerm(u: real, v: real, x: real, y: real)
    ensures Times(Times(u, x) - Times(v, y), Times(u, x) - Times(v, y)) == Form(u, v, Times(x, x), Times(x, y), Times(y, y))
  {
  }

  lemma FormAdds(u: real, v: real, p: real, q: real, r: real, p': real, q': real, r': real)
    ensures Form(u, v, p + p', q + q', r + r') == Form(u, v, p, q, r) + Form(u, v, p', q', r')
  {
    Distribute(Times(u, u), p, p');
    Distribute(Times(u, v), q, q');
    Distribute(Times(v, v), r, r');
  }

  lemma {:induction false} ResidueExpands(a: Vector, b: Vector, u: real, v: real, n: nat)
    requires n <= |a| && n <= |b|
    ensures Residue(a, b, u, v, n) == Form(u, v, Squares(a, n), Dot(a, b, n), Squares(b, n))
  {
    if n > 0 {
      var x, y := a[n - 1], b[n - 1];
      ResidueExpands(a, b, u, v, n - 1);
      SquareOfTerm(u, v, x, y);
      FormAdds(u, v, Squares(a, n - 1), Dot(a, b, n - 1), Squares(b, n - 1), Times(x, x), Times(x, y), Times(y, y));
    }
  }

  lemma FormFactors(A: real, B: real, D: real)
    ensures Form(B, D, A, D, B) == Times(B, Times(A, B) - Times(D, D))
  {
  }

  /** With `u = B` and `v = D` the residue is `B * (A * B - D * D)`. */
  lemma FromResidue(A: real, B: real, D: real)
    requires B > 0.0 && Form(B, D, A, D, B) >= 0.0
    ensures Times(D, D) <= Times(A, B)
    ensures Times(D, D) == Times(A, B) ==> Form(B, D, A, D, B) == 0.0
  {
    FormFactors(A, B, D);
    TimesSigns(B, Times(A, B) - Times(D, D));
  }

  lemma ResidueAtNorms(a: Vector, b: Vector)
    requires |a| == |b| && Squares(b, |b|) > 0.0
    ensures Times(Dot(a, b, |a|), Dot(a, b, |a|)) <= Times(Squares(a, |a|), Squares(b, |b|))
    ensures Times(Dot(a, b, |a|), Dot(a, b, |a|)) == Times(Squares(a, |a|), Squares(b, |b|)) ==>
              forall i :: 0 <= i < |a| ==> Term(a, b, Squares(b, |b|), Dot(a, b, |a|), i) == 0.0
  {
    var A, B, D := Squares(a, |a|), Squares(b, |b|), Dot(a, b, |a|);
    ResidueExpands(a, b, B, D, |a|);
    ResidueNonNegative(a, b, B, D, |a|);
    FromResidue(A, B, D);
  }

  lemma {:induction false} DotWithZero(a: Vector, b: Vector, n: nat)
    requires n <= |a| && n <= |b| && forall i :: 0 <= i < n ==> b[i] == 0.0
    ensures Dot(a, b, n) == 0.0
  {
    if n > 0 {
      DotWithZero(a, b, n - 1);
      TimesSigns(a[n - 1], b[n - 1]);
    }
  }

  /** For vectors of any length, the squared dot product is at most the product of the squared norms. */
  lemma CauchySchwarz(a: Vector, b: Vector)
    requires |a| == |b|
    ensures Times(Dot(a, b, |a|), Dot(a, b, |a|)) <= Times(Squares(a, |a|), Squares(b, |b|))
  {
    SquaresNonNegative(b, |b|);
    if Squares(b, |b|) > 0.0 {
      ResidueAtNorms(a, b);
    } else {
      DotWithZero(a, b, |a|);
      TimesSigns(Dot(a, b, |a|), Dot(a, b, |a|));
      TimesSigns(Squares(a, |a|), Squares(b, |b|));
    }
  }

  // ------------------------------------------------------------------------ range

  lemma SquareOfProduct(p: real, q: real)
    ensures Times(Times(p, q), Times(p, q)) == Times(Times(p, p), Times(q, q))
  {
  }

  lemma SmallerSquare(d: real, m: real)
    requires m > 0.0 && Times(d, d) <= Times(m, m)
    ensures -m <= d <= m
  {
    LargerSquare(d, m);
    LargerSquare(-d, m);
    assert Times(-d, -d) == Times(d, d);
  }

  lemma QuotientBound(d: real, m: real)
    requires m > 0.0 && -m <= d <= m
    ensures -1.0 <= d / m <= 1.0
    ensures d / m == 1.0 <==> d == m
  {
  }

  lemma DotBelowNorms(a: Vector, b: Vector, sqrt: real -> real)
    requires |a| == |b| && IsSqrt(sqrt) && Squares(a, |a|) != 0.0 && Squares(b, |b|) != 0.0
    ensures var m := Times(sqrt(Squares(a, |a|)), sqrt(Squares(b, |b|)));
            && m > 0.0 && Times(m, m) == Times(Squares(a, |a|), Squares(b, |b|))
            && -m <= Dot(a, b, |a|) <= m
  {
    var p, q := sqrt(Squares(a, |a|)), sqrt(Squares(b, |b|));
    NormsPositive(a, b, sqrt);
    CauchySchwarz(a, b);
    SquareOfProduct(p, q);
    SmallerSquare(Dot(a, b, |a|), Times(p, q));
  }

  /** Similarity lies in [-1, 1]. */
  lemma SimilarityRange(a: Vector, b: Vector, sqrt: real -> real)
    requires |a| == |b| && IsSqrt(sqrt)
    ensures -1.0 <= Similarity(a, b, sqrt) <= 1.0
  {
    if Squares(a, |a|) != 0.0 && Squares(b, |b|) != 0.0 {
      DotBelowNorms(a, b, sqrt);
      QuotientBound(Dot(a, b, |a|), Times(sqrt(Squares(a, |a|)), sqrt(Squares(b, |b|))));
    }
  }

  // --------------------------------------------------------------------- symmetry

  lemma {:induction false} DotSymmetric(a: Vector, b: Vector, n: nat)
    requires n <= |a| && n <= |b|
    ensures Dot(a, b, n) == Dot(b, a, n)
  {
    if n > 0 {
      DotSymmetric(a, b, n - 1);
      Commute(a[n - 1], b[n - 1]);
    }
  }

  lemma SimilaritySymmetric(a: Vector, b: Vector, sqrt: real -> real)
    requires |a| == |b|
    ensures Similarity(a, b, sqrt) == Similarity(b, a, sqrt)
  {
    DotSymmetric(a, b, |a|);
    Commute(sqrt(Squares(a, |a|)), sqrt(Squares(b, |b|)));
  }

  // ---------------------------------------------------------------------- scaling

  function Scale(k: real, a: Vector): (r: Vector)
    ensures |r| == |a| && forall i :: 0 <= i < |a| ==> r[i] == Times(k, a[i])
  {
    seq(|a|, i requires 0 <= i < |a| => Times(k, a[i]))
  }

  lemma {:induction false} DotScaled(k: real, a: Vector, b: Vector, n: nat)
    requires n <= |a| && n <= |b|
    ensures Dot(Scale(k, a), b, n) == Times(k, Dot(a, b, n))
  {
    if n > 0 {
      DotScaled(k, a, b, n - 1);
      Distribute(k, Dot(a, b, n - 1), Times(a[n - 1], b[n - 1]));
      Associate(k, a[n - 1], b[n - 1]);
    } else {
      TimesSigns(k, 0.0);
    }
  }

  lemma SquaresScaled(k: real, a: Vector)
    ensures Squares(Scale(k, a), |a|) == Times(Times(k, k), Squares(a, |a|))
  {
    DotScaled(k, a, Scale(k, a), |a|);
    DotSymmetric(a, Scale(k, a), |a|);
    DotScaled(k, a, a, |a|);
    Associate(k, k, Squares(a, |a|));
  }

  /** Making a vector longer or shorter without turning it leaves the similarity alone. */
  lemma SimilarityScaled(k: real, a: Vector, b: Vector, sqrt: real -> real)
    requires |a| == |b| && IsSqrt(sqrt) && k > 0.0
    ensures Similarity(Scale(k, a), b, sqrt) == Similarity(a, b, sqrt)
  {
    SquaresScaled(k, a);
    DotScaled(k, a, b, |a|);
    SquaresNonNegative(a, |a|);
    SquaresNonNegative(b, |b|);
    QuotientScaled(k, Dot(a, b, |a|), Squares(a, |a|), Squares(b, |b|), sqrt);
  }

  lemma QuotientScaled(k: real, d: real, na: real, nb: real, sqrt: real -> real)
    requires IsSqrt(sqrt) && k > 0.0 && na >= 0.0 && nb >= 0.0
    ensures Quotient(Times(k, d), Times(Times(k, k), na), nb, sqrt) == Quotient(d, na, nb, sqrt)
  {
    TimesSigns(k, k);
    TimesSigns(Times(k, k), na);
    if na > 0.0 && nb > 0.0 {
      ScaledRoot(k, na, sqrt);
      RootPositive(na, sqrt);
      RootPositive(nb, sqrt);
      TimesSigns(sqrt(na), sqrt(nb));
      Associate(k, sqrt(na), sqrt(nb));
      CancelFactor(k, d, Times(sqrt(na), sqrt(nb)));
    }
  }

  lemma ScaledRoot(k: real, x: real, sqrt: real -> real)
    requires IsSqrt(sqrt) && k > 0.0 && x > 0.0
    ensures Times(Times(k, k), x) > 0.0 && sqrt(Times(Times(k, k), x)) == Times(k, sqrt(x))
  {
    TimesSigns(k, k);
    TimesSigns(Times(k, k), x);
    RootPositive(x, sqrt);
    TimesSigns(k, sqrt(x));
    SquareOfProduct(k, sqrt(x));
    SameSquare(sqrt(Times(Times(k, k), x)), Times(k, sqrt(x)));
  }

  lemma CancelFactor(k: real, d: real, m: real)
    requires k > 0.0 && m > 0.0
    ensures Times(k, m) > 0.0 && Times(k, d) / Times(k, m) == d / m
  {
    TimesSigns(k, m);
    var r := d / m;
    assert r * m == d;
    assert r * (k * m) == k * d;
  }

  // -------------------------------------------------------------------- equality

  /** Similarity 1 means the same direction, and nothing else does. */
  lemma OneIffSameDirection(a: Vector, b: Vector, sqrt: real -> real)
    requires |a| == |b| && IsSqrt(sqrt)
    requires Squares(a, |a|) != 0.0 && Squares(b, |b|) != 0.0
    ensures Similarity(a, b, sqrt) == 1.0 <==> exists k: real :: k > 0.0 && a == Scale(k, b)
  {
    if Similarity(a, b, sqrt) == 1.0 {
      var k := SameDirection(a, b, sqrt);
    } else if k: real :| k > 0.0 && a == Scale(k, b) {
      SimilarityScaled(k, b, b, sqrt);
      SimilarToItself(b, sqrt);
    }
  }

  lemma SimilarToItself(a: Vector, sqrt: real -> real)
    requires IsSqrt(sqrt) && Squares(a, |a|) != 0.0
    ensures Similarity(a, a, sqrt) == 1.0
  {
    NormsPositive(a, a, sqrt);
    QuotientBound(Squares(a, |a|), Squares(a, |a|));
  }

  lemma SameDirection(a: Vector, b: Vector, sqrt: real -> real) returns (k: real)
    requires |a| == |b| && IsSqrt(sqrt)
    requires Squares(a, |a|) != 0.0 && Squares(b, |b|) != 0.0 && Similarity(a, b, sqrt) == 1.0
    ensures k > 0.0 && a == Scale(k, b)
  {
    DotBelowNorms(a, b, sqrt);
    NormsPositive(a, b, sqrt);
    QuotientBound(Dot(a, b, |a|), Times(sqrt(Squares(a, |a|)), sqrt(Squares(b, |b|))));
    ResidueAtNorms(a, b);
    k := Dot(a, b, |a|) / Squares(b, |b|);
    QuotientPositive(Dot(a, b, |a|), Squares(b, |b|));
    forall i | 0 <= i < |a|
      ensures a[i] == Scale(k, b)[i]
    {
      assert Term(a, b, Squares(b, |b|), Dot(a, b, |a|), i) == 0.0;
      Solve(Squares(b, |b|), Dot(a, b, |a|), a[i], b[i]);
    }
  }

  lemma QuotientPositive(d: real, m: real)
    requires d > 0.0 && m > 0.0
    ensures d / m > 0.0
  {
  }

  lemma Solve(B: real, D: real, x: real, y: real)
    requires B > 0.0 && Times(B, x) == Times(D, y)
    ensures x == Times(D / B, y)
  {
    assert B * (D / B * y) == D * y;
  }
}
