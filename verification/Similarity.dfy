/** The similarity metrics, over exact reals.

    The square root is a parameter: any function with `IsRoot`. */
module Similarity {
  import opened Options
  import opened LayerSearch
  import opened Reals

  ghost predicate IsRoot(root: real -> real) {
    forall x: real :: x >= 0.0 ==> root(x) >= 0.0 && Times(root(x), root(x)) == x
  }

  function Dot(x: Vec, y: Vec): real
    requires |x| == |y|
  {
    if x == [] then 0.0 else Times(x[0], y[0]) + Dot(x[1..], y[1..])
  }

  function Norm(root: real -> real, x: Vec): real { root(Dot(x, x)) }

  /** _validate_vectors: vectors of different dimensions and empty vectors are refused. */
  function Validated(x: Vec, y: Vec): Option<Error> {
    if |x| != |y| then Some(DimensionMismatch) else if x == [] then Some(InvalidArgument) else None
  }

  /** A dot product over two norms; 0 when a norm is. */
  function Ratio(d: real, n1: real, n2: real): real {
    if n1 == 0.0 || n2 == 0.0 then 0.0 else NonZero(n1, n2); d / Times(n1, n2)
  }

  function Cosine(root: real -> real, x: Vec, y: Vec): Result<real> {
    if Validated(x, y).Some? then Err(Validated(x, y).value)
    else Ok(Ratio(Dot(x, y), Norm(root, x), Norm(root, y)))
  }

  // ----- Cauchy-Schwarz -----

  lemma {:induction false} DotSelf(x: Vec)
    ensures Dot(x, x) >= 0.0
    ensures Dot(x, x) == 0.0 <==> forall i :: 0 <= i < |x| ==> x[i] == 0.0
  {
    if x != [] {
      DotSelf(x[1..]);
      SquareNonNegative(x[0]);
      if x[0] != 0.0 { NonZero(x[0], x[0]); }
      assert forall i :: 1 <= i < |x| ==> x[i] == x[1..][i - 1];
    }
  }

  /** 2uvd <= uub + vva when dd <= ab: the square of the left side is at most 4(uub)(vva). */
  lemma {:induction false} MixedTerm(w: real, d: real, s: real, t: real)
    requires s >= 0.0 && t >= 0.0 && Times(Times(w, d), Times(w, d)) <= Times(s, t)
    ensures 2.0 * Times(w, d) <= s + t
  {
    var z := Times(w, d);
    SquareNonNegative(s - t);
    SquareOfSum(s, t);
    SquareOfSum(s, -t);
    assert Times(s, -t) == -Times(s, t) && Times(-t, -t) == Times(t, t);
    assert Times(2.0 * z, 2.0 * z) == 4.0 * Times(z, z);
    SquareOrder(2.0 * z, s + t);
  }

  /** The square of the mixed term against the product of its two bounds. */
  lemma {:induction false} MixedSquare(u: real, v: real, a: real, b: real, d: real)
    requires a >= 0.0 && b >= 0.0 && Times(d, d) <= Times(a, b)
    ensures var w := Times(u, v);
            Times(Times(w, d), Times(w, d)) <= Times(Times(Times(u, u), b), Times(Times(v, v), a))
  {
    var w := Times(u, v);
    Regroup(w, d, w, d);
    Regroup(u, v, u, v);
    Regroup(Times(u, u), b, Times(v, v), a);
    SquareNonNegative(w);
    Monotone(Times(d, d), Times(a, b), Times(w, w));
    Commute(Times(d, d), Times(w, w));
    Commute(Times(a, b), Times(w, w));
    Commute(a, b);
  }

  /** One more coordinate: the step of the induction. */
  lemma {:induction false} OneMoreCoordinate(u: real, v: real, a: real, b: real, d: real)
    requires a >= 0.0 && b >= 0.0 && Times(d, d) <= Times(a, b)
    ensures Times(Times(u, v) + d, Times(u, v) + d) <= Times(Times(u, u) + a, Times(v, v) + b)
  {
    var w, s, t := Times(u, v), Times(Times(u, u), b), Times(Times(v, v), a);
    SquareNonNegative(u);
    SquareNonNegative(v);
    ProductNonNegative(Times(u, u), b);
    ProductNonNegative(Times(v, v), a);
    MixedSquare(u, v, a, b, d);
    MixedTerm(w, d, s, t);
    SquareOfSum(w, d);
    Regroup(u, v, u, v);
    Distribute(Times(u, u) + a, Times(v, v), b);
    Distribute(Times(v, v), Times(u, u), a);
    Distribute(b, Times(u, u), a);
    Commute(b, Times(u, u));
    Commute(b, a);
    Commute(Times(v, v), Times(u, u));
  }

  lemma {:induction false} CauchySchwarz(x: Vec, y: Vec)
    requires |x| == |y|
    ensures Times(Dot(x, y), Dot(x, y)) <= Times(Dot(x, x), Dot(y, y))
  {
    if x != [] {
      CauchySchwarz(x[1..], y[1..]);
      DotSelf(x[1..]);
      DotSelf(y[1..]);
      OneMoreCoordinate(x[0], y[0], Dot(x[1..], x[1..]), Dot(y[1..], y[1..]), Dot(x[1..], y[1..]));
    }
  }

  lemma {:induction false} RatioInRange(d: real, n1: real, n2: real, a: real, b: real)
    requires n1 >= 0.0 && n2 >= 0.0 && Times(n1, n1) == a && Times(n2, n2) == b && Times(d, d) <= Times(a, b)
    ensures -1.0 <= Ratio(d, n1, n2) <= 1.0
  {
    if n1 != 0.0 && n2 != 0.0 {
      var n := Times(n1, n2);
      NonZero(n1, n2);
      ProductNonNegative(n1, n2);
      Regroup(n1, n2, n1, n2);
      SquareOrder(d, n);
      var q := Divided(d, n);
      OrderBack(1.0, q, n);
      OrderBack(q, -1.0, n);
    }
  }

  /** Cosine similarity is defined for non-empty vectors of equal dimension and lies in
      [-1, 1], zero norms included. */
  lemma {:induction false} CosineInRange(root: real -> real, x: Vec, y: Vec)
    requires IsRoot(root)
    ensures Cosine(root, x, y).Ok? <==> |x| == |y| && x != []
    ensures |x| != |y| ==> Cosine(root, x, y) == Err(DimensionMismatch)
    ensures x == y == [] ==> Cosine(root, x, y) == Err(InvalidArgument)
    ensures Cosine(root, x, y).Ok? ==> -1.0 <= Cosine(root, x, y).value <= 1.0
  {
    if |x| == |y| && x != [] {
      DotSelf(x);
      DotSelf(y);
      CauchySchwarz(x, y);
      RatioInRange(Dot(x, y), Norm(root, x), Norm(root, y), Dot(x, x), Dot(y, y));
    }
  }

  // ----- Direction alone matters -----

  function Scale(k: real, x: Vec): (r: Vec)
    ensures |r| == |x|
  {
    if x == [] then [] else [Times(k, x[0])] + Scale(k, x[1..])
  }

  lemma {:induction false} DotScale(k: real, x: Vec, y: Vec)
    requires |x| == |y|
    ensures Dot(Scale(k, x), y) == Times(k, Dot(x, y))
  {
    if x != [] {
      DotScale(k, x[1..], y[1..]);
      Associate(k, x[0], y[0]);
      Distribute(k, Times(x[0], y[0]), Dot(x[1..], y[1..]));
    }
  }

  lemma {:induction false} DotSymmetric(x: Vec, y: Vec)
    requires |x| == |y|
    ensures Dot(x, y) == Dot(y, x)
  {
    if x != [] {
      DotSymmetric(x[1..], y[1..]);
      Commute(x[0], y[0]);
    }
  }

  lemma {:induction false} DotScaled(k: real, x: Vec)
    ensures Dot(Scale(k, x), Scale(k, x)) == Times(k, Times(k, Dot(x, x)))
  {
    DotScale(k, x, Scale(k, x));
    DotSymmetric(x, Scale(k, x));
    DotScale(k, x, x);
  }

  lemma {:induction false} RootUnique(root: real -> real, a: real, s: real)
    requires IsRoot(root) && a >= 0.0 && Times(a, a) == s
    ensures root(s) == a
  {
    SquareNonNegative(a);
    SquareOrder(root(s), a);
    SquareOrder(a, root(s));
  }

  lemma {:induction false} NormScale(root: real -> real, k: real, x: Vec)
    requires IsRoot(root) && k > 0.0
    ensures Norm(root, Scale(k, x)) == Times(k, Norm(root, x))
  {
    var n := Norm(root, x);
    DotSelf(x);
    DotScaled(k, x);
    ProductNonNegative(k, n);
    Regroup(k, n, k, n);
    Associate(k, k, Times(n, n));
    RootUnique(root, Times(k, n), Dot(Scale(k, x), Scale(k, x)));
  }

  lemma {:induction false} RatioScale(k: real, d: real, n1: real, n2: real)
    requires k > 0.0
    ensures Ratio(Times(k, d), Times(k, n1), n2) == Ratio(d, n1, n2)
  {
    if n1 == 0.0 {
      assert Times(k, n1) == 0.0;
    } else if n2 != 0.0 {
      NonZero(k, n1);
      NonZero(n1, n2);
      NonZero(Times(k, n1), n2);
      var q := Divided(d, Times(n1, n2));
      Associate(k, n1, n2);
      Commute(q, Times(k, Times(n1, n2)));
      Associate(k, Times(n1, n2), q);
      Commute(Times(n1, n2), q);
      QuotientIs(Times(k, d), Times(Times(k, n1), n2), q);
    }
  }

  /** Stretching a vector does not change its cosine similarity to anything. */
  lemma {:induction false} CosineScale(root: real -> real, k: real, x: Vec, y: Vec)
    requires IsRoot(root) && k > 0.0
    ensures Cosine(root, Scale(k, x), y) == Cosine(root, x, y)
  {
    if |x| == |y| && x != [] {
      NormScale(root, k, x);
      DotScale(k, x, y);
      RatioScale(k, Dot(x, y), Norm(root, x), Norm(root, y));
    }
  }

  lemma {:induction false} SelfRatio(n: real, d: real)
    requires n != 0.0 && Times(n, n) == d
    ensures Ratio(d, n, n) == 1.0 && Ratio(Times(-1.0, d), n, n) == -1.0
  {
    NonZero(n, n);
    QuotientIs(d, Times(n, n), 1.0);
    QuotientIs(Times(-1.0, d), Times(n, n), -1.0);
  }

  /** A vector other than zero has similarity 1 with itself, and -1 with its opposite. */
  lemma {:induction false} CosineSelf(root: real -> real, x: Vec)
    requires IsRoot(root) && exists i :: 0 <= i < |x| && x[i] != 0.0
    ensures Cosine(root, x, x) == Ok(1.0) && Cosine(root, Scale(-1.0, x), x) == Ok(-1.0)
  {
    DotSelf(x);
    DotScale(-1.0, x, x);
    DotScaled(-1.0, x);
    assert Times(-1.0, Times(-1.0, Dot(x, x))) == Dot(x, x);
    assert Norm(root, x) != 0.0 by { assert Times(0.0, 0.0) == 0.0; }
    SelfRatio(Norm(root, x), Dot(x, x));
  }

  // ----- The batch form -----

  /** What the batch form answers for one candidate: 0.0 where the single form refuses. */
  function CosineOrZero(root: real -> real, query: Vec, candidate: Vec): real {
    var single := Cosine(root, query, candidate);
    if single.Ok? then single.value else 0.0
  }

  /** The batch form agrees with the single form, but never refuses. */
  method CosineBatch(root: real -> real, query: Vec, candidates: seq<Vec>) returns (similarities: seq<real>)
    ensures |similarities| == |candidates|
    ensures forall i :: 0 <= i < |candidates| ==> similarities[i] == CosineOrZero(root, query, candidates[i])
  {
    if candidates == [] { return []; }
    var queryNorm := root(Dot(query, query));
    if queryNorm == 0.0 {
      similarities := seq(|candidates|, i => 0.0);
      return;
    }
    similarities := [];
    for i := 0 to |candidates|
      invariant |similarities| == i
      invariant forall j :: 0 <= j < i ==> similarities[j] == CosineOrZero(root, query, candidates[j])
    {
      var candidate := candidates[i];
      if candidate == [] || |candidate| != |query| {
        similarities := similarities + [0.0];
        continue;
      }
      var dotProduct := Dot(query, candidate);
      var candidateNorm := root(Dot(candidate, candidate));
      if candidateNorm == 0.0 {
        similarities := similarities + [0.0];
      } else {
        NonZero(queryNorm, candidateNorm);
        similarities := similarities + [dotProduct / Times(queryNorm, candidateNorm)];
      }
    }
  }

  // ----- Distances -----

  function Abs(a: real): real { if a < 0.0 then -a else a }

  function Minus(x: Vec, y: Vec): (r: Vec)
    requires |x| == |y|
    ensures |r| == |x| && forall i :: 0 <= i < |x| ==> r[i] == x[i] - y[i]
  {
    seq(|x|, i requires 0 <= i < |x| => x[i] - y[i])
  }

  function SumAbs(x: Vec): real { if x == [] then 0.0 else Abs(x[0]) + SumAbs(x[1..]) }

  function Larger(a: real, b: real): real { if a > b then a else b }

  /** max over the coordinates; 0 stands for the empty maximum, which the code refuses. */
  function MaxAbs(x: Vec): real { if x == [] then 0.0 else Larger(Abs(x[0]), MaxAbs(x[1..])) }

  function Euclidean(root: real -> real, x: Vec, y: Vec): real
    requires |x| == |y|
  {
    Norm(root, Minus(x, y))
  }

  function Manhattan(x: Vec, y: Vec): real
    requires |x| == |y|
  {
    SumAbs(Minus(x, y))
  }

  function Chebyshev(x: Vec, y: Vec): real
    requires |x| == |y|
  {
    MaxAbs(Minus(x, y))
  }

  /** A distance turned into a similarity. */
  function Nearness(distance: real): real
    requires distance >= 0.0
  {
    1.0 / (1.0 + distance)
  }

  lemma {:induction false} Nearer(d: real, e: real)
    requires 0.0 <= d <= e
    ensures 0.0 < Nearness(e) <= Nearness(d) <= 1.0 && (Nearness(d) == 1.0 <==> d == 0.0)
  {
    var p := Divided(1.0, 1.0 + d);
    var q := Divided(1.0, 1.0 + e);
    OrderBack(q, 0.0, 1.0 + e);
    NonZero(q, 1.0 + e);
    Monotone(1.0 + d, 1.0 + e, q);
    Commute(1.0 + d, q);
    Commute(1.0 + e, q);
    OrderBack(p, q, 1.0 + d);
    OrderBack(1.0, p, 1.0 + d);
  }

  lemma {:induction false} OneMoreTerm(u: real, m: real, s: real, d: real)
    requires 0.0 <= m <= s && Times(m, m) <= d <= Times(s, s)
    ensures 0.0 <= Larger(Abs(u), m) <= Abs(u) + s
    ensures Times(Larger(Abs(u), m), Larger(Abs(u), m)) <= Times(u, u) + d <= Times(Abs(u) + s, Abs(u) + s)
  {
    SquareNonNegative(u);
    SquareNonNegative(m);
    SquareOfSum(Abs(u), s);
    ProductNonNegative(Abs(u), s);
    assert Times(Abs(u), Abs(u)) == Times(u, u);
  }

  lemma {:induction false} MaxBelowSum(x: Vec)
    ensures 0.0 <= MaxAbs(x) <= SumAbs(x)
    ensures Times(MaxAbs(x), MaxAbs(x)) <= Dot(x, x) <= Times(SumAbs(x), SumAbs(x))
  {
    if x != [] {
      MaxBelowSum(x[1..]);
      OneMoreTerm(x[0], MaxAbs(x[1..]), SumAbs(x[1..]), Dot(x[1..], x[1..]));
    }
  }

  lemma {:induction false} ZeroMax(x: Vec)
    ensures MaxAbs(x) >= 0.0
    ensures MaxAbs(x) == 0.0 <==> forall i :: 0 <= i < |x| ==> x[i] == 0.0
    ensures MaxAbs(x) == 0.0 ==> SumAbs(x) == 0.0
  {
    if x != [] {
      ZeroMax(x[1..]);
      assert forall i :: 1 <= i < |x| ==> x[i] == x[1..][i - 1];
    }
  }

  lemma {:induction false} ZeroMinus(x: Vec, y: Vec)
    requires |x| == |y|
    ensures x == y <==> forall i :: 0 <= i < |x| ==> Minus(x, y)[i] == 0.0
  {
    if forall i :: 0 <= i < |x| ==> Minus(x, y)[i] == 0.0 {
      forall i | 0 <= i < |x| ensures x[i] == y[i] { assert Minus(x, y)[i] == 0.0; }
    }
  }

  /** The three distances are always ordered. */
  lemma {:induction false} DistancesOrdered(root: real -> real, x: Vec, y: Vec)
    requires IsRoot(root) && |x| == |y|
    ensures 0.0 <= Chebyshev(x, y) <= Euclidean(root, x, y) <= Manhattan(x, y)
    ensures x == y <==> Chebyshev(x, y) == 0.0
    ensures x == y ==> Manhattan(x, y) == 0.0
  {
    var d := Minus(x, y);
    MaxBelowSum(d);
    DotSelf(d);
    SquareOrder(MaxAbs(d), Norm(root, d));
    SquareOrder(Norm(root, d), SumAbs(d));
    ZeroMinus(x, y);
    ZeroMax(d);
  }

  /** The three distance-based similarities lie in (0, 1], are 1 exactly for equal vectors,
      and are always ordered: Manhattan, Euclidean, Chebyshev. */
  lemma {:induction false} NearnessOrdered(root: real -> real, x: Vec, y: Vec)
    requires IsRoot(root) && |x| == |y|
    ensures 0.0 <= Chebyshev(x, y) <= Euclidean(root, x, y) <= Manhattan(x, y)
    ensures 0.0 < Nearness(Manhattan(x, y)) <= Nearness(Euclidean(root, x, y)) <= Nearness(Chebyshev(x, y)) <= 1.0
    ensures x == y <==> Nearness(Manhattan(x, y)) == 1.0
    ensures x == y <==> Nearness(Euclidean(root, x, y)) == 1.0
    ensures x == y <==> Nearness(Chebyshev(x, y)) == 1.0
  {
    DistancesOrdered(root, x, y);
    Nearer(Chebyshev(x, y), Euclidean(root, x, y));
    Nearer(Euclidean(root, x, y), Manhattan(x, y));
    Nearer(Manhattan(x, y), Manhattan(x, y));
  }

  // ----- Coordinate by coordinate -----

  lemma {:induction false} DotBack(x: Vec, y: Vec, a: real, b: real)
    requires |x| == |y|
    ensures Dot([], []) == 0.0 && Dot(x + [a], y + [b]) == Dot(x, y) + Times(a, b)
  {
    assert (x + [a])[1..] == if x == [] then [] else x[1..] + [a];
    assert (y + [b])[1..] == if y == [] then [] else y[1..] + [b];
    if x != [] { DotBack(x[1..], y[1..], a, b); }
  }

  lemma {:induction false} SumAbsBack(x: Vec, a: real)
    ensures SumAbs(x + [a]) == SumAbs(x) + Abs(a)
    ensures MaxAbs(x + [a]) == Larger(MaxAbs(x), Abs(a))
  {
    assert (x + [a])[1..] == if x == [] then [] else x[1..] + [a];
    ZeroMax(x);
    if x != [] { SumAbsBack(x[1..], a); }
  }

  function Difference(a: real, b: real): real { if a < b then b - a else a - b }

  /** The distances between empty vectors are zero, and one more coordinate adds its difference
      to the Manhattan distance, and counts in the Chebyshev distance if it is the largest. */
  lemma {:induction false} DistanceBack(x: Vec, y: Vec, a: real, b: real)
    requires |x| == |y|
    ensures Manhattan([], []) == Chebyshev([], []) == 0.0
    ensures Manhattan(x + [a], y + [b]) == Manhattan(x, y) + Difference(a, b)
    ensures Chebyshev(x + [a], y + [b])
            == if Difference(a, b) > Chebyshev(x, y) then Difference(a, b) else Chebyshev(x, y)
  {
    assert Minus(x + [a], y + [b]) == Minus(x, y) + [a - b];
    SumAbsBack(Minus(x, y), a - b);
  }

  /** The square of the Euclidean distance grows by the square of the difference. */
  lemma {:induction false} EuclideanBack(root: real -> real, x: Vec, y: Vec, a: real, b: real)
    requires IsRoot(root) && |x| == |y|
    ensures var e, f := Euclidean(root, x, y), Euclidean(root, x + [a], y + [b]);
            Times(f, f) == Times(e, e) + Times(Difference(a, b), Difference(a, b))
    ensures Times(Euclidean(root, [], []), Euclidean(root, [], [])) == 0.0
  {
    var d := Minus(x, y);
    assert Minus(x + [a], y + [b]) == d + [a - b];
    DotBack(d, d, a - b, a - b);
    NormSquared(root, d);
    NormSquared(root, d + [a - b]);
    NormSquared(root, Minus([], []));
    SameSquare(a, b);
  }

  lemma {:induction false} SameSquare(a: real, b: real)
    ensures Times(a - b, a - b) == Times(Difference(a, b), Difference(a, b))
  {
  }

  lemma {:induction false} NormSquared(root: real -> real, x: Vec)
    requires IsRoot(root)
    ensures Times(Norm(root, x), Norm(root, x)) == Dot(x, x) && Norm(root, x) >= 0.0
  {
    DotSelf(x);
  }

  /** A similarity times one more than the distance is one. */
  lemma {:induction false} NearnessIs(d: real)
    requires d >= 0.0
    ensures Nearness(d) * (1.0 + d) == 1.0
  {
  }

  /** Cosine similarity times both norms is the dot product, where no norm is zero. */
  lemma {:induction false} CosineIs(root: real -> real, x: Vec, y: Vec)
    requires IsRoot(root) && |x| == |y| && x != []
    ensures Norm(root, x) != 0.0 && Norm(root, y) != 0.0 ==>
              Times(Cosine(root, x, y).value, Times(Norm(root, x), Norm(root, y))) == Dot(x, y)
    ensures Norm(root, x) == 0.0 || Norm(root, y) == 0.0 ==> Cosine(root, x, y).value == 0.0
  {
    if Norm(root, x) != 0.0 && Norm(root, y) != 0.0 {
      NonZero(Norm(root, x), Norm(root, y));
      var q := Divided(Dot(x, y), Times(Norm(root, x), Norm(root, y)));
    }
  }

  // ----- Inner product -----

  function InnerProduct(x: Vec, y: Vec): Result<real> {
    if Validated(x, y).Some? then Err(Validated(x, y).value) else Ok(Dot(x, y))
  }

  /** The batch form zips without checking the dimensions. */
  function Zipped(x: Vec, y: Vec): real {
    var n := Min(|x|, |y|);
    Dot(x[..n], y[..n])
  }

  /** The batch form agrees with the single form wherever that is defined ... */
  lemma {:induction false} ZippedAgrees(x: Vec, y: Vec)
    requires InnerProduct(x, y).Ok?
    ensures InnerProduct(x, y) == Ok(Zipped(x, y))
  {
    assert x[..|x|] == x && y[..|y|] == y;
  }

  /** ... but it also scores vectors that the single form refuses, with any number at all. */
  lemma {:induction false} ZippedAcceptsMismatch(a: real)
    ensures InnerProduct([a], [1.0, 1.0]).Err? && Zipped([a], [1.0, 1.0]) == a
  {
    assert [1.0, 1.0][..1] == [1.0] && [a][..1] == [a];
    assert Dot([a], [1.0]) == Times(a, 1.0) + Dot([], []);
  }
}
