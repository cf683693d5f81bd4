/** Vectors over exact reals: cosine similarity and why it stays within [-1, 1].
    The square root is a parameter, assumed exact. */
module VectorMath {
  type Vector = seq<real>

  ghost predicate ExactRoot(root: real -> real) {
    forall x: real {:trigger root(x)} :: 0.0 <= x ==> 0.0 <= root(x) && root(x) * root(x) == x
  }

  // Products by name: the solver then treats equal factors as equal products.
  function Times(x: real, y: real): real { x * y }

  function Quotient(x: real, m: real): real
    requires m != 0.0
  {
    x / m
  }

  lemma SquareNonNegative(x: real)
    ensures 0.0 <= Times(x, x)
  {}

  function Dot(a: Vector, b: Vector, n: nat): real
    requires n <= |a| && n <= |b|
  {
    if n == 0 then 0.0 else Dot(a, b, n - 1) + Times(a[n-1], b[n-1])
  }

  function SumSquares(a: Vector, n: nat): (s: real)
    requires n <= |a|
    ensures 0.0 <= s
  {
    if n == 0 then 0.0 else SquareNonNegative(a[n-1]); SumSquares(a, n - 1) + Times(a[n-1], a[n-1])
  }

  function Shorter(a: Vector, b: Vector): nat { if |a| < |b| then |a| else |b| }

  lemma NonZeroProduct(x: real, y: real)
    requires x != 0.0 && y != 0.0
    ensures Times(x, y) != 0.0
  {}

  // Cosine of the common prefix; 0 when a prefix is empty or zero.
  function Cosine(root: real -> real, a: Vector, b: Vector): real {
    var n := Shorter(a, b);
    if n == 0 then 0.0
    else
      var na, nb := root(SumSquares(a, n)), root(SumSquares(b, n));
      if na != 0.0 && nb != 0.0 then NonZeroProduct(na, nb); Quotient(Dot(a, b, n), Times(na, nb)) else 0.0
  }

  // The squared length of x b - y a, from |b|^2, a . b and |a|^2.
  function Gap(sb: real, d: real, sa: real, x: real, y: real): real {
    Times(Times(x, x), sb) - 2.0 * Times(Times(x, y), d) + Times(Times(y, y), sa)
  }

  lemma Spread(k: real, s: real, t: real)
    ensures Times(k, s + t) == Times(k, s) + Times(k, t)
  {}

  lemma GapOfEntry(x: real, y: real, p: real, q: real)
    ensures 0.0 <= Gap(Times(q, q), Times(p, q), Times(p, p), x, y)
  {
    var u, v := x * q, y * p;
    SquareNonNegative(u - v);
    assert (u - v) * (u - v) == u * u - 2.0 * (u * v) + v * v;
    assert u * u == (x * x) * (q * q);
    assert v * v == (y * y) * (p * p);
    assert u * v == (x * y) * (p * q);
  }

  lemma GapAdds(sb: real, d: real, sa: real, tb: real, e: real, ta: real, x: real, y: real)
    ensures Gap(sb + tb, d + e, sa + ta, x, y) == Gap(sb, d, sa, x, y) + Gap(tb, e, ta, x, y)
  {
    Spread(Times(x, x), sb, tb);
    Spread(Times(x, y), d, e);
    Spread(Times(y, y), sa, ta);
  }

  lemma {:induction false} GapNonNegative(a: Vector, b: Vector, n: nat, x: real, y: real)
    requires n <= |a| && n <= |b|
    ensures 0.0 <= Gap(SumSquares(b, n), Dot(a, b, n), SumSquares(a, n), x, y)
  {
    if n > 0 {
      GapNonNegative(a, b, n - 1, x, y);
      var p, q := a[n-1], b[n-1];
      GapOfEntry(x, y, p, q);
      GapAdds(SumSquares(b, n - 1), Dot(a, b, n - 1), SumSquares(a, n - 1), Times(q, q), Times(p, q), Times(p, p), x, y);
    }
  }

  lemma ProductStep(s: real, t: real, d: real, p: real, q: real)
    requires Times(d, d) <= Times(s, t) && 0.0 <= Gap(t, d, s, p, q)
    ensures Times(d + Times(p, q), d + Times(p, q)) <= Times(s + Times(p, p), t + Times(q, q))
  {
    var m := p * q;
    assert (d + m) * (d + m) == d * d + 2.0 * (m * d) + m * m;
    assert (s + p * p) * (t + q * q) == s * t + s * (q * q) + (p * p) * t + (p * p) * (q * q);
    assert m * m == (p * p) * (q * q);
  }

  lemma {:induction false} CauchySchwarz(a: Vector, b: Vector, n: nat)
    requires n <= |a| && n <= |b|
    ensures Times(Dot(a, b, n), Dot(a, b, n)) <= Times(SumSquares(a, n), SumSquares(b, n))
  {
    if n > 0 {
      CauchySchwarz(a, b, n - 1);
      GapNonNegative(a, b, n - 1, a[n-1], b[n-1]);
      ProductStep(SumSquares(a, n - 1), SumSquares(b, n - 1), Dot(a, b, n - 1), a[n-1], b[n-1]);
    }
  }

  lemma SquareOrder(x: real, m: real)
    requires 0.0 < m && x * x <= m * m
    ensures -m <= x <= m
  {
    DifferenceOfSquares(x, m);
    if m < x { PositiveProduct(x - m, x + m); }
    if x < -m { PositiveProduct(m - x, -m - x); }
  }

  lemma DifferenceOfSquares(x: real, m: real)
    ensures (x - m) * (x + m) == x * x - m * m
    ensures (m - x) * (-m - x) == x * x - m * m
  {}

  lemma EqualFactors(a: real, b: real, c: real, d: real)
    requires a == b && c == d
    ensures a * c == b * d
  {}

  lemma QuotientBounded(x: real, m: real)
    requires 0.0 < m && -m <= x <= m
    ensures -1.0 <= Quotient(x, m) <= 1.0
  {
    var r := x / m;
    assert r * m == x;
  }

  lemma Regroup(x: real, y: real)
    ensures (x * y) * (x * y) == (x * x) * (y * y)
  {}

  lemma CosineCore(d: real, s: real, t: real, na: real, nb: real)
    requires Times(d, d) <= Times(s, t) && na * na == s && nb * nb == t && 0.0 < na && 0.0 < nb
    ensures Times(na, nb) != 0.0 && -1.0 <= Quotient(d, Times(na, nb)) <= 1.0
  {
    Regroup(na, nb);
    EqualFactors(na * na, s, nb * nb, t);
    PositiveProduct(na, nb);
    SquareOrder(d, na * nb);
    QuotientBounded(d, na * nb);
  }

  // For all vectors, of equal or unequal length.
  lemma CosineBounded(root: real -> real, a: Vector, b: Vector)
    requires ExactRoot(root)
    ensures -1.0 <= Cosine(root, a, b) <= 1.0
  {
    hide Dot, SumSquares, Times;
    var n := Shorter(a, b);
    if n > 0 {
      var d, s, t := PrefixValues(a, b, n);
      var na, nb := root(s), root(t);
      if na != 0.0 && nb != 0.0 {
        CosineCore(d, s, t, na, nb);
      }
    }
  }

  lemma PrefixValues(a: Vector, b: Vector, n: nat) returns (d: real, s: real, t: real)
    requires n <= |a| && n <= |b|
    ensures d == Dot(a, b, n) && s == SumSquares(a, n) && t == SumSquares(b, n)
    ensures Times(d, d) <= Times(s, t) && 0.0 <= s && 0.0 <= t
  {
    d, s, t := Dot(a, b, n), SumSquares(a, n), SumSquares(b, n);
    CauchySchwarz(a, b, n);
  }

  lemma PositiveProduct(x: real, y: real)
    requires 0.0 < x && 0.0 < y
    ensures 0.0 < x * y && 0.0 < Times(x, y)
  {}

  lemma {:induction false} DotSelf(a: Vector, n: nat)
    requires n <= |a|
    ensures Dot(a, a, n) == SumSquares(a, n)
  {
    if n > 0 { DotSelf(a, n - 1); }
  }

  // A vector that is not zero is as similar to itself as can be.
  lemma CosineSelf(root: real -> real, a: Vector)
    requires ExactRoot(root)
    ensures Cosine(root, a, a) == if SumSquares(a, |a|) > 0.0 then 1.0 else 0.0
  {
    DotSelf(a, |a|);
    var d, s, t := PrefixValues(a, a, |a|);
    assert Shorter(a, a) == |a|;
    var r := root(s);
    assert r * r == s;
    if s > 0.0 {
      if r == 0.0 { EqualFactors(r, 0.0, r, 0.0); }
      SelfQuotient(s, Times(r, r));
    } else {
      ZeroSquare(r);
    }
  }

  lemma SelfQuotient(s: real, t: real)
    requires s == t && s != 0.0
    ensures Quotient(s, t) == 1.0
  {}

  // ---------------- what cosine measures ----------------

  // The squared distance of the common prefixes.
  function Distance(a: Vector, b: Vector, n: nat): real
    requires n <= |a| && n <= |b|
  {
    if n == 0 then 0.0 else Distance(a, b, n - 1) + Times(a[n-1] - b[n-1], a[n-1] - b[n-1])
  }

  lemma SquareOfDifference(x: real, y: real)
    ensures Times(x - y, x - y) == Times(x, x) + Times(y, y) - 2.0 * Times(x, y)
  {}

  lemma {:induction false} DistanceByDot(a: Vector, b: Vector, n: nat)
    requires n <= |a| && n <= |b|
    ensures Distance(a, b, n) == SumSquares(a, n) + SumSquares(b, n) - 2.0 * Dot(a, b, n)
  {
    if n > 0 {
      DistanceByDot(a, b, n - 1);
      SquareOfDifference(a[n-1], b[n-1]);
    }
  }

  lemma QuotientTimes(d: real, m: real)
    requires m != 0.0
    ensures Times(m, Quotient(d, m)) == d
  {}

  lemma NoLengthNoDot(d: real, s: real, t: real)
    requires Times(d, d) <= Times(s, t) && (s == 0.0 || t == 0.0)
    ensures d == 0.0
  {
    ZeroSquare(d);
  }

  lemma ZeroTimes(x: real, y: real, z: real)
    requires x == 0.0 || y == 0.0
    ensures Times(Times(x, y), z) == 0.0
  {}

  // The law of cosines: the score of two vectors is fixed by their lengths and their
  // distance.
  lemma LawOfCosines(root: real -> real, a: Vector, b: Vector)
    requires ExactRoot(root)
    ensures var n := Shorter(a, b);
            var na, nb := root(SumSquares(a, n)), root(SumSquares(b, n));
            Distance(a, b, n) == SumSquares(a, n) + SumSquares(b, n) - 2.0 * Times(Times(na, nb), Cosine(root, a, b))
  {
    hide Dot, SumSquares, Distance, Times, Quotient;
    var n := Shorter(a, b);
    DistanceByDot(a, b, n);
    var d, s, t := PrefixValues(a, b, n);
    var na, nb := root(s), root(t);
    if n == 0 {
      EmptyPrefix(a, b);
      TimesZero(Times(na, nb));
    } else if na != 0.0 && nb != 0.0 {
      NonZeroProduct(na, nb);
      QuotientTimes(d, Times(na, nb));
    } else {
      ZeroTimes(na, nb, Cosine(root, a, b));
      NoLengthNoDot(d, s, t);
    }
  }

  lemma EmptyPrefix(a: Vector, b: Vector)
    ensures Dot(a, b, 0) == 0.0
  {}

  lemma TimesZero(x: real)
    ensures Times(x, 0.0) == 0.0
  {}

  // ---------------- normalising ----------------

  function Scale(a: Vector, norm: real): Vector
    requires norm != 0.0
  {
    seq(|a|, i requires 0 <= i < |a| => Quotient(a[i], norm))
  }

  function Normalise(root: real -> real, a: Vector): Vector {
    var norm := root(SumSquares(a, |a|));
    if norm != 0.0 then Scale(a, norm) else a
  }

  lemma ScaledTerm(x: real, norm: real, k: real, y: real)
    requires x * norm == y && k == norm * norm
    ensures k * (x * x) == y * y
  {
    Regroup(x, norm);
    EqualFactors(k, norm * norm, x * x, x * x);
    EqualFactors(x * norm, y, x * norm, y);
  }

  lemma {:induction false} ScaledSquares(a: Vector, norm: real, k: real, n: nat) returns (u: real)
    requires norm != 0.0 && k == norm * norm && n <= |a|
    ensures u == SumSquares(Scale(a, norm), n) && Times(k, u) == SumSquares(a, n)
  {
    u := 0.0;
    if n > 0 {
      var v := ScaledSquares(a, norm, k, n - 1);
      var x := Quotient(a[n-1], norm);
      ScaledTerm(x, norm, k, a[n-1]);
      Spread(k, v, x * x);
      u := v + x * x;
    }
  }

  // A normalised vector has length one, or every entry is zero.
  lemma NormalisedLength(root: real -> real, a: Vector)
    requires ExactRoot(root)
    ensures SumSquares(a, |a|) > 0.0 ==> SumSquares(Normalise(root, a), |a|) == 1.0
    ensures SumSquares(a, |a|) == 0.0 ==> Normalise(root, a) == a && forall i :: 0 <= i < |a| ==> a[i] == 0.0
    ensures |Normalise(root, a)| == |a|
  {
    var s := SumSquares(a, |a|);
    var norm := root(s);
    assert norm * norm == s;
    if s > 0.0 {
      if norm == 0.0 { EqualFactors(norm, 0.0, norm, 0.0); }
      var u := ScaledSquares(a, norm, s, |a|);
      UnitFactor(u, s);
    } else {
      ZeroSquare(norm);
      ZeroSquares(a, |a|);
    }
  }

  // And it points where the vector points: scaled by the length it is the vector.
  lemma NormalisedDirection(root: real -> real, a: Vector, i: nat)
    requires ExactRoot(root) && i < |a|
    ensures |Normalise(root, a)| == |a|
    ensures SumSquares(a, |a|) > 0.0 ==> Times(root(SumSquares(a, |a|)), Normalise(root, a)[i]) == a[i]
  {
    var norm := root(SumSquares(a, |a|));
    if norm != 0.0 {
      QuotientTimes(a[i], norm);
    } else if SumSquares(a, |a|) > 0.0 {
      EqualFactors(norm, 0.0, norm, 0.0);
    }
  }

  lemma UnitFactor(u: real, s: real)
    requires Times(s, u) == s && s > 0.0
    ensures u == 1.0
  {}

  lemma ZeroSquare(x: real)
    requires Times(x, x) <= 0.0
    ensures x == 0.0
  {
    if x > 0.0 { PositiveProduct(x, x); }
    if x < 0.0 { NegativeProduct(x, x); }
  }

  lemma NegativeProduct(x: real, y: real)
    requires x < 0.0 && y < 0.0
    ensures 0.0 < Times(x, y)
  {}

  lemma {:induction false} ZeroSquares(a: Vector, n: nat)
    requires n <= |a| && SumSquares(a, n) == 0.0
    ensures forall i :: 0 <= i < n ==> a[i] == 0.0
  {
    if n > 0 {
      SquareNonNegative(a[n-1]);
      ZeroSquare(a[n-1]);
      ZeroSquares(a, n - 1);
    }
  }
}
