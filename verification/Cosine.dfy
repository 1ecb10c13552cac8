/** Cosine similarity (src/data_olympus/embeddings.py:135-152), over the reals. */
module Cosine {
  import opened Common

  type Vector = seq<real>

  /** What the accumulation rests on of `math.sqrt`. */
  ghost predicate SquareRoots(sqrt: real -> real) {
    forall x :: x >= 0.0 ==> sqrt(x) >= 0.0 && sqrt(x) * sqrt(x) == x
  }

  ghost function Dot(a: Vector, b: Vector): real
    requires |a| == |b|
    decreases |a|
  {
    if a == [] then 0.0 else Dot(a[..|a| - 1], b[..|b| - 1]) + a[|a| - 1] * b[|b| - 1]
  }

  lemma SquareNotNegative(x: real)
    ensures x * x >= 0.0
  {
  }

  lemma ProductOfSquares(x: real, y: real)
    ensures (x * y) * (x * y) == (x * x) * (y * y)
  {
  }

  lemma Positive(p: real, q: real)
    requires p > 0.0 && q > 0.0
    ensures p * q > 0.0
  {
  }

  lemma SmallerSquares(x: real, y: real)
    requires 0.0 <= x < y
    ensures x * x < y * y
  {
    Positive(y - x, y + x);
    assert (y - x) * (y + x) == y * y - x * x;
  }

  /** Twice a number is at most a sum whose parts bound its square. */
  lemma MeanInequality(t: real, a: real, b: real)
    requires a >= 0.0 && b >= 0.0 && t * t <= a * b
    ensures 2.0 * t <= a + b
  {
    SquareNotNegative(a - b);
    assert (a + b) * (a + b) == (a - b) * (a - b) + 4.0 * (a * b);
    assert (2.0 * t) * (2.0 * t) == 4.0 * (t * t);
    if 2.0 * t > a + b {
      SmallerSquares(a + b, 2.0 * t);
    }
  }

  lemma TimesMonotone(x: real, y: real, z: real)
    requires x <= y && z >= 0.0
    ensures x * z <= y * z
  {
  }

  lemma SquareOfSum(d: real, p: real)
    ensures (d + p) * (d + p) == d * d + 2.0 * (d * p) + p * p
  {
  }

  lemma ProductOfSums(a: real, b: real, c: real, d: real)
    ensures (a + b) * (c + d) == a * c + a * d + c * b + b * d
  {
  }

  lemma RegroupFactors(a: real, b: real, c: real, d: real)
    ensures (a * b) * (c * d) == (a * c) * (d * b)
  {
    assert (a * b) * (c * d) == a * (b * (c * d));
    assert b * (c * d) == c * (d * b);
    assert a * (c * (d * b)) == (a * c) * (d * b);
  }

  lemma NotNegative(x: real, y: real)
    requires x >= 0.0 && y >= 0.0
    ensures x * y >= 0.0
  {
  }

  /** The cross term is bounded by its two parts; `p` is a product whose square is `q * r`. */
  lemma CrossTerm(dot: real, na: real, nb: real, p: real, q: real, r: real)
    requires na >= 0.0 && nb >= 0.0 && q >= 0.0 && r >= 0.0 && dot * dot <= na * nb && p * p == q * r
    ensures 2.0 * (dot * p) <= na * r + nb * q
  {
    var t, a, b, s := dot * p, na * r, nb * q, q * r;
    NotNegative(na, r);
    NotNegative(nb, q);
    NotNegative(q, r);
    ProductOfSquares(dot, p);
    TimesMonotone(dot * dot, na * nb, s);
    RegroupFactors(na, r, nb, q);
    MeanInequality(t, a, b);
  }

  lemma CauchyCore(dot: real, na: real, nb: real, p: real, q: real, r: real)
    requires na >= 0.0 && nb >= 0.0 && q >= 0.0 && r >= 0.0 && dot * dot <= na * nb && p * p == q * r
    ensures (dot + p) * (dot + p) <= (na + q) * (nb + r)
  {
    CrossTerm(dot, na, nb, p, q, r);
    SquareOfSum(dot, p);
    ProductOfSums(na, q, nb, r);
  }

  /** One more pair of coordinates keeps the inequality. */
  lemma CauchyStep(dot: real, na: real, nb: real, x: real, y: real)
    requires na >= 0.0 && nb >= 0.0 && dot * dot <= na * nb
    ensures na + x * x >= 0.0 && nb + y * y >= 0.0
    ensures (dot + x * y) * (dot + x * y) <= (na + x * x) * (nb + y * y)
  {
    SquareNotNegative(x);
    SquareNotNegative(y);
    ProductOfSquares(x, y);
    CauchyCore(dot, na, nb, x * y, x * x, y * y);
  }

  /** The square of a number bounds it on both sides. */
  lemma BoundedBySquare(x: real, s: real)
    requires s > 0.0 && x * x <= s * s
    ensures -s <= x <= s
  {
    assert (-x) * (-x) == x * x;
    if x > s {
      SmallerSquares(s, x);
    } else if -x > s {
      SmallerSquares(s, -x);
    }
  }

  lemma QuotientBounded(x: real, s: real)
    requires s > 0.0 && -s <= x <= s
    ensures -1.0 <= x / s <= 1.0
  {
    var r := x / s;
    assert r * s == x;
    assert (r - 1.0) * s == r * s - s && (-1.0 - r) * s == -s - r * s;
    if r > 1.0 {
      Positive(r - 1.0, s);
    }
    if r < -1.0 {
      Positive(-1.0 - r, s);
    }
  }

  /** The last step of `cosine`: divide by both norms, or 0 without a direction. */
  function Normalised(dot: real, na: real, nb: real, sqrt: real -> real): real {
    if na == 0.0 || nb == 0.0 || sqrt(na) * sqrt(nb) == 0.0 then 0.0 else dot / (sqrt(na) * sqrt(nb))
  }

  lemma RootIsPositive(p: real, n: real)
    requires p >= 0.0 && p * p == n && n > 0.0
    ensures p > 0.0
  {
    assert p == 0.0 ==> p * p == 0.0;
  }

  lemma NormsArePositive(na: real, nb: real, sqrt: real -> real)
    requires SquareRoots(sqrt) && na > 0.0 && nb > 0.0
    ensures var s := sqrt(na) * sqrt(nb); s > 0.0 && s * s == na * nb
  {
    var p, q := sqrt(na), sqrt(nb);
    RootIsPositive(p, na);
    RootIsPositive(q, nb);
    Positive(p, q);
    ProductOfSquares(p, q);
  }

  lemma NormBounds(dot: real, na: real, nb: real, sqrt: real -> real)
    requires SquareRoots(sqrt) && na > 0.0 && nb > 0.0 && dot * dot <= na * nb
    ensures var s := sqrt(na) * sqrt(nb); s > 0.0 && -1.0 <= dot / s <= 1.0
  {
    NormsArePositive(na, nb, sqrt);
    BoundedBySquare(dot, sqrt(na) * sqrt(nb));
    QuotientBounded(dot, sqrt(na) * sqrt(nb));
  }

  lemma NormalisedBounds(dot: real, na: real, nb: real, sqrt: real -> real)
    requires SquareRoots(sqrt) && na >= 0.0 && nb >= 0.0 && dot * dot <= na * nb
    ensures -1.0 <= Normalised(dot, na, nb, sqrt) <= 1.0
    ensures na != 0.0 && nb != 0.0 ==> sqrt(na) * sqrt(nb) != 0.0
  {
    if na != 0.0 && nb != 0.0 {
      NormBounds(dot, na, nb, sqrt);
    }
  }

  /** `cosine`: an error on a length mismatch, else a number in [-1, 1], and 0 without a direction. */
  method Similarity(a: Vector, b: Vector, sqrt: real -> real) returns (similarity: Option<real>)
    requires SquareRoots(sqrt)
    ensures similarity.None? <==> |a| != |b|
    ensures similarity.Some? ==> similarity == Some(CosineOf(a, b, sqrt)) && -1.0 <= similarity.value <= 1.0
  {
    if |a| != |b| {
      return None;
    }
    var dot, na, nb := Accumulate(a, b);
    CauchySchwarz(a, b);
    NormalisedBounds(dot, na, nb, sqrt);
    if na == 0.0 || nb == 0.0 {
      return Some(0.0);
    }
    return Some(dot / (sqrt(na) * sqrt(nb)));
  }

  /** The accumulation loop. */
  method Accumulate(a: Vector, b: Vector) returns (dot: real, na: real, nb: real)
    requires |a| == |b|
    ensures dot == Dot(a, b) && na == Dot(a, a) && nb == Dot(b, b)
  {
    dot, na, nb := 0.0, 0.0, 0.0;
    for i := 0 to |a|
      invariant dot == Dot(a[..i], b[..i]) && na == Dot(a[..i], a[..i]) && nb == Dot(b[..i], b[..i])
    {
      assert a[..i + 1][..i] == a[..i] && b[..i + 1][..i] == b[..i];
      dot, na, nb := dot + a[i] * b[i], na + a[i] * a[i], nb + b[i] * b[i];
    }
    assert a[..|a|] == a && b[..|b|] == b;
  }

  /** The similarity as a formula. */
  ghost function CosineOf(a: Vector, b: Vector, sqrt: real -> real): real
    requires |a| == |b|
  {
    Normalised(Dot(a, b), Dot(a, a), Dot(b, b), sqrt)
  }

  /** Cauchy-Schwarz, for all vectors. */
  lemma {:induction false} CauchySchwarz(a: Vector, b: Vector)
    requires |a| == |b|
    ensures Dot(a, a) >= 0.0 && Dot(b, b) >= 0.0 && Dot(a, b) * Dot(a, b) <= Dot(a, a) * Dot(b, b)
    decreases |a|
  {
    if a != [] {
      var c, d := a[..|a| - 1], b[..|b| - 1];
      CauchySchwarz(c, d);
      CauchyStep(Dot(c, d), Dot(c, c), Dot(d, d), a[|a| - 1], b[|b| - 1]);
    }
  }

  lemma CosineInRange(a: Vector, b: Vector, sqrt: real -> real)
    requires |a| == |b| && SquareRoots(sqrt)
    ensures -1.0 <= CosineOf(a, b, sqrt) <= 1.0
  {
    CauchySchwarz(a, b);
    NormalisedBounds(Dot(a, b), Dot(a, a), Dot(b, b), sqrt);
  }

  /** The similarity times the norms is the product of the vectors, and 0 where one has no direction. */
  lemma CosineMeans(a: Vector, b: Vector, sqrt: real -> real)
    requires |a| == |b| && SquareRoots(sqrt)
    ensures Dot(a, a) != 0.0 && Dot(b, b) != 0.0 ==>
              CosineOf(a, b, sqrt) * (sqrt(Dot(a, a)) * sqrt(Dot(b, b))) == Dot(a, b)
    ensures Dot(a, a) == 0.0 || Dot(b, b) == 0.0 ==> CosineOf(a, b, sqrt) == 0.0
  {
    CauchySchwarz(a, b);
    NormalisedTimes(Dot(a, b), Dot(a, a), Dot(b, b), sqrt);
  }

  lemma NormalisedTimes(dot: real, na: real, nb: real, sqrt: real -> real)
    requires SquareRoots(sqrt) && na >= 0.0 && nb >= 0.0
    ensures na != 0.0 && nb != 0.0 ==> Normalised(dot, na, nb, sqrt) * (sqrt(na) * sqrt(nb)) == dot
  {
    if na != 0.0 && nb != 0.0 {
      NormsArePositive(na, nb, sqrt);
      QuotientTimes(dot, sqrt(na) * sqrt(nb));
    }
  }

  lemma QuotientTimes(x: real, s: real)
    requires s != 0.0
    ensures (x / s) * s == x
  {
  }

  /** A vector with a direction has similarity 1 to itself and -1 to its opposite, and order does not matter. */
  lemma CosineOfItself(a: Vector, sqrt: real -> real)
    requires SquareRoots(sqrt) && Dot(a, a) != 0.0
    ensures CosineOf(a, a, sqrt) == 1.0 && CosineOf(a, Opposite(a), sqrt) == -1.0
  {
    CauchySchwarz(a, a);
    OppositeDots(a);
    NormalisedSelf(Dot(a, a), sqrt);
  }

  lemma OppositeDots(a: Vector)
    ensures Dot(a, Opposite(a)) == -Dot(a, a) && Dot(Opposite(a), Opposite(a)) == Dot(a, a)
  {
    DotOpposite(a, a);
    DotOpposite(Opposite(a), a);
    DotSymmetric(Opposite(a), a);
  }

  lemma NormalisedSelf(n: real, sqrt: real -> real)
    requires SquareRoots(sqrt) && n > 0.0
    ensures Normalised(n, n, n, sqrt) == 1.0 && Normalised(-n, n, n, sqrt) == -1.0
  {
    var r := sqrt(n);
    assert r * r == n;
    OverItself(n, r * r);
  }

  lemma OverItself(n: real, s: real)
    requires n > 0.0 && s == n
    ensures n / s == 1.0 && -n / s == -1.0
  {
  }

  function Opposite(a: Vector): (b: Vector)
    ensures |b| == |a| && forall i :: 0 <= i < |a| ==> b[i] == -a[i]
  {
    seq(|a|, i requires 0 <= i < |a| => -a[i])
  }

  lemma {:induction false} DotOpposite(a: Vector, b: Vector)
    requires |a| == |b|
    ensures Dot(a, Opposite(b)) == -Dot(a, b)
    decreases |a|
  {
    if a != [] {
      DotOpposite(a[..|a| - 1], b[..|b| - 1]);
      assert Opposite(b)[..|b| - 1] == Opposite(b[..|b| - 1]);
      NegativeFactor(a[|a| - 1], b[|b| - 1]);
    }
  }

  lemma NegativeFactor(x: real, y: real)
    ensures x * -y == -(x * y)
  {
  }

  lemma {:induction false} DotSymmetric(a: Vector, b: Vector)
    requires |a| == |b|
    ensures Dot(a, b) == Dot(b, a)
    decreases |a|
  {
    if a != [] {
      DotSymmetric(a[..|a| - 1], b[..|b| - 1]);
      assert a[|a| - 1] * b[|b| - 1] == b[|b| - 1] * a[|a| - 1];
    }
  }
}
