/**
 * The guarded cosine similarity used to score an item's embedding against the query's.
 * Vectors are sequences of reals; the square root is a parameter, and the lemmas that
 * need its meaning ask for `IsSqrt`.
 */
module Similarity {

  /** The dot product over the zipped prefix of the two vectors (`zip` stops at the shorter one). */
  function Dot(v1: seq<real>, v2: seq<real>): real {
    if v1 == [] || v2 == [] then 0.0 else v1[0] * v2[0] + Dot(v1[1..], v2[1..])
  }

  /** The sum of the squared components. */
  function SumSq(v: seq<real>): real {
    if v == [] then 0.0 else v[0] * v[0] + SumSq(v[1..])
  }

  /**
   * `cosine_similarity`: 0 for an empty vector, vectors of different lengths or a zero norm;
   * otherwise the dot product over the product of the norms.
   */
  function Cosine(sqrt: real -> real, v1: seq<real>, v2: seq<real>): (r: real)
    ensures v1 == [] || v2 == [] || |v1| != |v2| ==> r == 0.0
    ensures sqrt(SumSq(v1)) == 0.0 || sqrt(SumSq(v2)) == 0.0 ==> r == 0.0
  {
    if v1 == [] || v2 == [] || |v1| != |v2| then 0.0
    else
      var norm1, norm2 := sqrt(SumSq(v1)), sqrt(SumSq(v2));
      if norm1 == 0.0 || norm2 == 0.0 then 0.0 else Dot(v1, v2) / (norm1 * norm2)
  }

  /** `sqrt` is the non-negative square root on non-negative arguments. */
  ghost predicate IsSqrt(sqrt: real -> real) {
    forall x :: 0.0 <= x ==> 0.0 <= sqrt(x) && sqrt(x) * sqrt(x) == x
  }

  lemma {:induction false} DotCommutes(v1: seq<real>, v2: seq<real>)
    ensures Dot(v1, v2) == Dot(v2, v1)
  {
    if v1 != [] && v2 != [] {
      DotCommutes(v1[1..], v2[1..]);
    }
  }

  lemma {:induction false} DotSelf(v: seq<real>)
    ensures Dot(v, v) == SumSq(v)
  {
    if v != [] {
      DotSelf(v[1..]);
    }
  }

  lemma {:induction false} SumSqOfZeros(v: seq<real>)
    requires forall i :: 0 <= i < |v| ==> v[i] == 0.0
    ensures SumSq(v) == 0.0
  {
    if v != [] {
      assert forall i :: 0 <= i < |v[1..]| ==> v[1..][i] == v[i + 1];
      SumSqOfZeros(v[1..]);
    }
  }

  /** The similarity does not depend on the order of its arguments. */
  lemma CosineSymmetric(sqrt: real -> real, v1: seq<real>, v2: seq<real>)
    ensures Cosine(sqrt, v1, v2) == Cosine(sqrt, v2, v1)
  {
    DotCommutes(v1, v2);
    if v1 != [] && v2 != [] && |v1| == |v2| {
      var norm1, norm2 := sqrt(SumSq(v1)), sqrt(SumSq(v2));
      assert norm1 * norm2 == norm2 * norm1;
    }
  }

  /** An all-zero vector scores 0 against anything, for any square root with `sqrt(0) == 0`. */
  lemma ZeroVectorScoresZero(sqrt: real -> real, v1: seq<real>, v2: seq<real>)
    requires sqrt(0.0) == 0.0
    requires forall i :: 0 <= i < |v1| ==> v1[i] == 0.0
    ensures Cosine(sqrt, v1, v2) == 0.0
  {
    SumSqOfZeros(v1);
  }

  /** A vector of non-zero norm is perfectly similar to itself. */
  lemma SelfSimilarity(sqrt: real -> real, v: seq<real>)
    requires IsSqrt(sqrt)
    requires SumSq(v) != 0.0
    ensures Cosine(sqrt, v, v) == 1.0
  {
    DotSelf(v);
    assert 0.0 <= SumSq(v) by { SumSqNonNegative(v); }
    var n := sqrt(SumSq(v));
    RatioOfSquare(SumSq(v), n);
  }

  lemma RatioOfSquare(s: real, n: real)
    requires n * n == s && s != 0.0
    ensures n != 0.0 && s / (n * n) == 1.0
  {
  }

  lemma {:induction false} SumSqNonNegative(v: seq<real>)
    ensures 0.0 <= SumSq(v)
  {
    if v != [] {
      SumSqNonNegative(v[1..]);
    }
  }

  /**
   * On unit vectors (as the embedder's L2 normalisation produces) the score is the plain dot
   * product; all that is needed of the square root is `sqrt(1) == 1`.
   */
  lemma UnitVectorsScoreDot(sqrt: real -> real, v1: seq<real>, v2: seq<real>)
    requires sqrt(1.0) == 1.0
    requires |v1| == |v2|
    requires SumSq(v1) == 1.0 && SumSq(v2) == 1.0
    ensures Cosine(sqrt, v1, v2) == Dot(v1, v2)
  {
  }

  // ---------------------------------------------------------------------------
  // The score lies in [-1, 1]

  /** The induction step of Cauchy–Schwarz: one more pair of components keeps the inequality. */
  lemma CauchySchwarzStep(x: real, y: real, a: real, b: real, d: real, dot: real, sq1: real, sq2: real)
    requires 0.0 <= a && 0.0 <= b && d * d <= a * b
    requires dot == x * y + d && sq1 == x * x + a && sq2 == y * y + b
    ensures dot * dot <= sq1 * sq2
  {
    assert dot * dot == x * x * (y * y) + 2.0 * x * y * d + d * d;
    assert sq1 * sq2 == x * x * (y * y) + x * x * b + y * y * a + a * b;
    CrossTerm(x, y, a, b, d);
  }

  /** `2xyd <= x²b + y²a` whenever `d² <= ab` with `a` and `b` non-negative. */
  lemma CrossTerm(x: real, y: real, a: real, b: real, d: real)
    requires 0.0 <= a && 0.0 <= b && d * d <= a * b
    ensures 2.0 * x * y * d <= x * x * b + y * y * a
  {
    SquareNonNegative(x);
    SquareNonNegative(y);
    if a == 0.0 {
      assert a * b == 0.0;
      ZeroSquare(d, d);
      MulMonotone(x * x, 0.0, b);
    } else {
      var e := x * d - y * a;
      SquareNonNegative(e);
      assert e * e == x * x * (d * d) - 2.0 * x * y * a * d + y * y * (a * a);
      MulMonotone(x * x, d * d, a * b);
      assert a * (x * x * b + y * y * a - 2.0 * x * y * d) == x * x * (a * b) - 2.0 * x * y * a * d + y * y * (a * a);
      NonNegativeFactor(a, x * x * b + y * y * a - 2.0 * x * y * d);
    }
  }

  lemma MulMonotone(c: real, u: real, v: real)
    requires 0.0 <= c && u <= v
    ensures c * u <= c * v
  {
    assert c * v - c * u == c * (v - u);
  }

  lemma SquareNonNegative(z: real)
    ensures 0.0 <= z * z
  {
    if z < 0.0 { assert z * z == (-z) * (-z); }
  }

  /** Only zero has a non-positive square (stated on two equal factors, which the solver handles). */
  lemma ZeroSquare(z: real, w: real)
    requires z == w && z * w <= 0.0
    ensures z == 0.0
  {
  }

  /** Cauchy–Schwarz: the squared dot product is at most the product of the sums of squares. */
  lemma {:induction false} CauchySchwarz(v1: seq<real>, v2: seq<real>)
    requires |v1| == |v2|
    ensures Dot(v1, v2) * Dot(v1, v2) <= SumSq(v1) * SumSq(v2)
  {
    if v1 != [] {
      CauchySchwarz(v1[1..], v2[1..]);
      SumSqNonNegative(v1[1..]);
      SumSqNonNegative(v2[1..]);
      CauchySchwarzStep(v1[0], v2[0], SumSq(v1[1..]), SumSq(v2[1..]), Dot(v1[1..], v2[1..]),
                        Dot(v1, v2), SumSq(v1), SumSq(v2));
    }
  }

  /** A number whose square is at most `p * p` lies in `[-p, p]`. */
  lemma SquareBound(d: real, p: real)
    requires 0.0 < p && d * d <= p * p
    ensures -p <= d <= p
  {
    SquareNonNegative(p - d);
    SquareNonNegative(p + d);
    assert 2.0 * p * (p - d) == (p - d) * (p - d) + (p * p - d * d);
    assert 2.0 * p * (p + d) == (p + d) * (p + d) + (p * p - d * d);
    NonNegativeFactor(2.0 * p, p - d);
    NonNegativeFactor(2.0 * p, p + d);
  }

  lemma NonNegativeFactor(p: real, w: real)
    requires 0.0 < p && 0.0 <= p * w
    ensures 0.0 <= w
  {
    assert w == (p * w) / p;
  }

  /** With a true square root, the score of any two vectors lies in `[-1, 1]`. */
  lemma CosineBounded(sqrt: real -> real, v1: seq<real>, v2: seq<real>)
    requires IsSqrt(sqrt)
    ensures -1.0 <= Cosine(sqrt, v1, v2) <= 1.0
  {
    if v1 != [] && v2 != [] && |v1| == |v2| {
      SumSqNonNegative(v1);
      SumSqNonNegative(v2);
      var n1, n2 := sqrt(SumSq(v1)), sqrt(SumSq(v2));
      assert 0.0 <= n1 && n1 * n1 == SumSq(v1);
      assert 0.0 <= n2 && n2 * n2 == SumSq(v2);
      if n1 != 0.0 && n2 != 0.0 {
        CauchySchwarz(v1, v2);
        RatioBound(Dot(v1, v2), n1, n2, SumSq(v1), SumSq(v2));
        assert Cosine(sqrt, v1, v2) == Dot(v1, v2) / (n1 * n2);
      }
    }
  }

  /** `d / (n1 * n2)` lies in `[-1, 1]` when `n1`, `n2` are the positive roots of `s1`, `s2` and `d * d <= s1 * s2`. */
  lemma RatioBound(d: real, n1: real, n2: real, s1: real, s2: real)
    requires 0.0 < n1 && 0.0 < n2 && n1 * n1 == s1 && n2 * n2 == s2 && d * d <= s1 * s2
    ensures -1.0 <= d / (n1 * n2) <= 1.0
  {
    var p := n1 * n2;
    assert 0.0 < p;
    assert p * p == s1 * s2 by {
      assert p * p == (n1 * n1) * (n2 * n2);
    }
    SquareBound(d, p);
    assert -1.0 <= d / p <= 1.0 by {
      DivisionBound(d, p);
    }
  }

  lemma DivisionBound(d: real, p: real)
    requires 0.0 < p && -p <= d <= p
    ensures -1.0 <= d / p <= 1.0
  {
  }
}
