/** Ranking quality and its confidence interval (benchmarks/metrics.py:43-50 and 126-183), over the reals. */
module Metrics {
  import opened Ranking
  import opened Cosine

  // ---- Normalised discounted gain ----------------------------------------------------------------------

  /** Position weights, positive and never rising, as `1 / log2(i + 1)` is. */
  ghost predicate Discounts(w: nat -> real) {
    forall i: nat :: w(i) > 0.0 && w(i) >= w(i + 1)
  }

  /** The summed weights of the gold positions among the first `n`. */
  function Gain(ranked: seq<string>, gold: set<string>, w: nat -> real, n: nat): real
    requires n <= |ranked|
  {
    if n == 0 then 0.0 else Gain(ranked, gold, w, n - 1) + (if ranked[n - 1] in gold then w(n) else 0.0)
  }

  function Hits(ranked: seq<string>, gold: set<string>, n: nat): nat
    requires n <= |ranked|
  {
    if n == 0 then 0 else Hits(ranked, gold, n - 1) + (if ranked[n - 1] in gold then 1 else 0)
  }

  /** The gain of `n` gold results in the first `n` places. */
  function Ideal(w: nat -> real, n: nat): real {
    if n == 0 then 0.0 else Ideal(w, n - 1) + w(n)
  }

  lemma {:induction false} WeightsFall(w: nat -> real, i: nat, j: nat)
    requires Discounts(w) && i <= j
    ensures w(i) >= w(j)
  {
    if i < j {
      WeightsFall(w, i, j - 1);
    }
  }

  /** Gold results count most in front: no arrangement of the hits beats the ideal one. */
  lemma {:induction false} GainBelowIdeal(ranked: seq<string>, gold: set<string>, w: nat -> real, n: nat)
    requires Discounts(w) && n <= |ranked|
    ensures 0.0 <= Gain(ranked, gold, w, n) <= Ideal(w, Hits(ranked, gold, n))
    ensures Hits(ranked, gold, n) <= n
  {
    if n > 0 {
      GainBelowIdeal(ranked, gold, w, n - 1);
      if ranked[n - 1] in gold {
        WeightsFall(w, Hits(ranked, gold, n), n);
      }
    }
  }

  lemma {:induction false} IdealGrows(w: nat -> real, m: nat, n: nat)
    requires Discounts(w) && m <= n
    ensures 0.0 <= Ideal(w, m) <= Ideal(w, n) && (n > 0 ==> Ideal(w, n) > 0.0)
    decreases n
  {
    if n > 0 {
      IdealGrows(w, if m == n then n - 1 else m, n - 1);
    }
  }

  /** The first `n` results as a set. */
  function Seen(ranked: seq<string>, n: nat): set<string>
    requires n <= |ranked|
  {
    if n == 0 then {} else Seen(ranked, n - 1) + {ranked[n - 1]}
  }

  lemma {:induction false} SeenBefore(ranked: seq<string>, n: nat, x: string)
    requires n <= |ranked| && x in Seen(ranked, n)
    ensures exists i :: 0 <= i < n && ranked[i] == x
  {
    if x != ranked[n - 1] {
      SeenBefore(ranked, n - 1, x);
    }
  }

  lemma NewAt(ranked: seq<string>, i: nat)
    requires NoRepeats(ranked) && i < |ranked|
    ensures ranked[i] !in Seen(ranked, i)
  {
    if ranked[i] in Seen(ranked, i) {
      SeenBefore(ranked, i, ranked[i]);
    }
  }

  lemma OneHitMore(before: set<string>, x: string, gold: set<string>)
    requires x !in before
    ensures |(before + {x}) * gold| == |before * gold| + if x in gold then 1 else 0
  {
    assert (before + {x}) * gold == before * gold + if x in gold then {x} else {};
  }

  /** Without duplicates there are no more hits than gold results. */
  lemma {:induction false} HitsAreGold(ranked: seq<string>, gold: set<string>, n: nat)
    requires NoRepeats(ranked) && n <= |ranked|
    ensures Hits(ranked, gold, n) == |Seen(ranked, n) * gold|
  {
    if n > 0 {
      HitsAreGold(ranked, gold, n - 1);
      NewAt(ranked, n - 1);
      OneHitMore(Seen(ranked, n - 1), ranked[n - 1], gold);
    }
  }

  /** `ndcg_at_k`: in [0, 1] for every ranking without duplicates. */
  method NdcgAtK(ranked: seq<string>, gold: set<string>, k: nat, w: nat -> real) returns (ndcg: real)
    requires Discounts(w)
    ensures var n, ideal := (if |ranked| < k then |ranked| else k), Ideal(w, if |gold| < k then |gold| else k);
            ndcg == if ideal > 0.0 then Gain(ranked, gold, w, n) / ideal else 0.0
    ensures NoRepeats(ranked) ==> 0.0 <= ndcg <= 1.0
  {
    var dcg, n := 0.0, if |ranked| < k then |ranked| else k;
    for i := 0 to n
      invariant dcg == Gain(ranked, gold, w, i)
    {
      if ranked[i] in gold {
        dcg := dcg + w(i + 1);
      }
    }
    var idealHits := if |gold| < k then |gold| else k;
    var idcg := 0.0;
    for i := 0 to idealHits
      invariant idcg == Ideal(w, i)
    {
      idcg := idcg + w(i + 1);
    }
    if NoRepeats(ranked) {
      GainInRange(ranked, gold, w, n, idealHits);
    }
    return if idcg > 0.0 then dcg / idcg else 0.0;
  }

  lemma GainInRange(ranked: seq<string>, gold: set<string>, w: nat -> real, n: nat, ideal: nat)
    requires Discounts(w) && NoRepeats(ranked) && n <= |ranked| && (ideal == |gold| || n <= ideal)
    ensures 0.0 <= Gain(ranked, gold, w, n) <= Ideal(w, ideal)
    ensures Ideal(w, ideal) > 0.0 ==> 0.0 <= Gain(ranked, gold, w, n) / Ideal(w, ideal) <= 1.0
  {
    GainBelowIdeal(ranked, gold, w, n);
    HitsAreGold(ranked, gold, n);
    SmallerSet(Seen(ranked, n) * gold, gold);
    IdealGrows(w, Hits(ranked, gold, n), ideal);
    if Ideal(w, ideal) > 0.0 {
      Share(Gain(ranked, gold, w, n), Ideal(w, ideal));
    }
  }

  lemma Share(x: real, s: real)
    requires s > 0.0 && 0.0 <= x <= s
    ensures 0.0 <= x / s <= 1.0
  {
    QuotientBounded(x, s);
    var r := x / s;
    assert r * s == x;
    if r < 0.0 {
      Positive(-r, s);
    }
  }

  /**
  Without that: whatever the weights, the gain stays within the ideal one if and only if the hits are no more
  than the ideal counts.
  */
  lemma BoundedExactly(ranked: seq<string>, gold: set<string>, n: nat, ideal: nat)
    requires n <= |ranked|
    ensures (forall w :: Discounts(w) ==> Gain(ranked, gold, w, n) <= Ideal(w, ideal)) <==>
              Hits(ranked, gold, n) <= ideal
  {
    var even: nat -> real := i => 1.0;
    EvenWeights(ranked, gold, even, n);
    EvenIdeal(even, ideal);
    assert Discounts(even);
    if Hits(ranked, gold, n) <= ideal {
      forall w | Discounts(w) ensures Gain(ranked, gold, w, n) <= Ideal(w, ideal) {
        GainBelowIdeal(ranked, gold, w, n);
        IdealGrows(w, Hits(ranked, gold, n), ideal);
      }
    }
  }

  lemma {:induction false} EvenWeights(ranked: seq<string>, gold: set<string>, w: nat -> real, n: nat)
    requires n <= |ranked| && forall i: nat :: w(i) == 1.0
    ensures Gain(ranked, gold, w, n) == Hits(ranked, gold, n) as real
  {
    if n > 0 {
      EvenWeights(ranked, gold, w, n - 1);
    }
  }

  lemma {:induction false} EvenIdeal(w: nat -> real, n: nat)
    requires forall i: nat :: w(i) == 1.0
    ensures Ideal(w, n) == n as real
  {
    if n > 0 {
      EvenIdeal(w, n - 1);
    }
  }

  /** One gold result listed twice scores above 1, under any weights. */
  lemma DuplicateScoresAboveOne(w: nat -> real)
    requires Discounts(w)
    ensures Gain(["a", "a"], {"a"}, w, 2) > Ideal(w, 1) > 0.0
  {
    var ranked, gold := ["a", "a"], {"a"};
    assert Gain(ranked, gold, w, 1) == Gain(ranked, gold, w, 0) + w(1);
    assert Gain(ranked, gold, w, 2) == Gain(ranked, gold, w, 1) + w(2);
    assert Ideal(w, 1) == Ideal(w, 0) + w(1);
  }

  /** `dedupe` (benchmarks/methods/base.py:14-21): every result once, where it first stands. */
  function FirstOccurrences(xs: seq<string>): seq<string>
    decreases |xs|
  {
    if xs == [] then []
    else FirstOccurrences(xs[..|xs| - 1]) + (if xs[|xs| - 1] in xs[..|xs| - 1] then [] else [xs[|xs| - 1]])
  }

  lemma FirstOccurrencesNext(xs: seq<string>, i: nat)
    requires i < |xs|
    ensures FirstOccurrences(xs[..i + 1]) == FirstOccurrences(xs[..i]) + (if xs[i] in xs[..i] then [] else [xs[i]])
  {
    assert xs[..i + 1][..i] == xs[..i];
  }

  method Dedupe(xs: seq<string>) returns (out: seq<string>)
    ensures out == FirstOccurrences(xs) && NoRepeats(out)
    ensures forall x :: x in out <==> x in xs
  {
    out := [];
    for i := 0 to |xs|
      invariant out == FirstOccurrences(xs[..i]) && NoRepeats(out)
      invariant forall x :: x in out <==> x in xs[..i]
    {
      FirstOccurrencesNext(xs, i);
      assert xs[..i + 1] == xs[..i] + [xs[i]];
      if xs[i] !in out {
        out := out + [xs[i]];
      }
    }
    assert xs[..|xs|] == xs;
  }

  // ---- Percentiles ----------------------------------------------------------------------------------------

  ghost predicate Sorted(vals: seq<real>) {
    forall i, j :: 0 <= i <= j < |vals| ==> vals[i] <= vals[j]
  }

  function Between(a: real, b: real, f: real): real {
    a * (1.0 - f) + b * f
  }

  /** `_percentile`: the linearly interpolated quantile of a sorted list. */
  function Percentile(vals: seq<real>, q: real): real
    requires 0.0 <= q <= 1.0
  {
    if vals == [] then 0.0
    else if |vals| == 1 then vals[0]
    else
      ValueAt(vals, Position(|vals|, q))
  }

  /** The interpolated value at a position between two places of the list. */
  function ValueAt(vals: seq<real>, pos: real): real
    requires 0.0 <= pos <= (|vals| - 1) as real
  {
    FloorBelow(pos, |vals| - 1);
    if pos == pos.Floor as real then vals[pos.Floor]
    else Between(vals[pos.Floor], vals[pos.Floor + 1], pos - pos.Floor as real)
  }

  /** Where the quantile `q` of `n` values lies. */
  function Position(n: nat, q: real): (pos: real)
    requires n > 0 && 0.0 <= q <= 1.0
    ensures 0.0 <= pos <= (n - 1) as real
  {
    PositionInRange(q, (n - 1) as real);
    q * (n - 1) as real
  }

  lemma PositionInRange(q: real, top: real)
    requires 0.0 <= q <= 1.0 && top >= 0.0
    ensures 0.0 <= q * top <= top
  {
    TimesMonotone(0.0, q, top);
    TimesMonotone(q, 1.0, top);
    assert 0.0 * top == 0.0 && 1.0 * top == top;
  }

  lemma PositionsGrow(n: nat, p: real, q: real) returns (low: real, high: real)
    requires n > 0 && 0.0 <= p <= q <= 1.0
    ensures low == Position(n, p) && high == Position(n, q) && 0.0 <= low <= high <= (n - 1) as real
  {
    low, high := ScaledOrder(p, q, (n - 1) as real);
    assert low == Position(n, p) && high == Position(n, q);
  }

  lemma ScaledOrder(p: real, q: real, top: real) returns (low: real, high: real)
    requires p <= q && top >= 0.0
    ensures low == p * top && high == q * top && low <= high
  {
    TimesMonotone(p, q, top);
    low, high := p * top, q * top;
  }

  lemma FloorBelow(pos: real, top: int)
    requires 0.0 <= pos <= top as real
    ensures 0 <= pos.Floor <= top && (pos != pos.Floor as real ==> pos.Floor < top)
  {
  }

  lemma BetweenForm(a: real, b: real, f: real)
    ensures Between(a, b, f) == a + (b - a) * f
  {
  }

  lemma BetweenBounds(a: real, b: real, f: real)
    requires a <= b && 0.0 <= f <= 1.0
    ensures a <= Between(a, b, f) <= b
  {
    BetweenForm(a, b, f);
    GrowingPart(b - a, 0.0, f);
    GrowingPart(b - a, f, 1.0);
  }

  lemma GrowingPart(d: real, f: real, g: real)
    requires d >= 0.0 && f <= g
    ensures d * f <= d * g
  {
    TimesMonotone(f, g, d);
  }

  lemma BetweenGrows(a: real, b: real, f: real, g: real)
    requires a <= b && f <= g
    ensures Between(a, b, f) <= Between(a, b, g)
  {
    BetweenForm(a, b, f);
    BetweenForm(a, b, g);
    GrowingPart(b - a, f, g);
  }

  lemma ValueBounds(vals: seq<real>, pos: real)
    requires Sorted(vals) && 0.0 <= pos <= (|vals| - 1) as real
    ensures 0 <= pos.Floor < |vals| && vals[pos.Floor] <= ValueAt(vals, pos)
    ensures ValueAt(vals, pos) <= vals[if pos == pos.Floor as real then pos.Floor else pos.Floor + 1]
  {
    FloorBelow(pos, |vals| - 1);
    if pos != pos.Floor as real {
      BetweenBounds(vals[pos.Floor], vals[pos.Floor + 1], pos - pos.Floor as real);
    }
  }

  lemma ValueGrows(vals: seq<real>, p: real, q: real)
    requires Sorted(vals) && 0.0 <= p <= q <= (|vals| - 1) as real
    ensures ValueAt(vals, p) <= ValueAt(vals, q)
  {
    ValueBounds(vals, p);
    ValueBounds(vals, q);
    assert p.Floor <= q.Floor;
    if p.Floor == q.Floor && p != p.Floor as real && q != q.Floor as real {
      BetweenGrows(vals[p.Floor], vals[p.Floor + 1], p - p.Floor as real, q - q.Floor as real);
    }
  }

  /** On a sorted list a quantile lies between the extremes. */
  lemma PercentileBounds(vals: seq<real>, q: real)
    requires Sorted(vals) && vals != [] && 0.0 <= q <= 1.0
    ensures vals[0] <= Percentile(vals, q) <= vals[|vals| - 1]
  {
    if |vals| > 1 {
      ValueBounds(vals, Position(|vals|, q));
    }
  }

  /** And a higher quantile is never lower. */
  lemma PercentileGrows(vals: seq<real>, p: real, q: real)
    requires Sorted(vals) && 0.0 <= p <= q <= 1.0
    ensures Percentile(vals, p) <= Percentile(vals, q)
  {
    if |vals| > 1 {
      var low, high := PositionsGrow(|vals|, p, q);
      ValueGrows(vals, low, high);
    }
  }

  /** The quantile at position `k + f` of the list lies that part of the way from one value to the next. */
  lemma PercentileMeans(vals: seq<real>, q: real, k: nat, f: real)
    requires 0.0 <= q <= 1.0 && k + 1 < |vals| && 0.0 <= f <= 1.0
    requires q * (|vals| - 1) as real == k as real + f
    ensures Percentile(vals, q) == vals[k] + (vals[k + 1] - vals[k]) * f
  {
    var pos := Position(|vals|, q);
    assert pos == k as real + f;
    BetweenForm(vals[k], vals[k + 1], f);
    if f == 1.0 {
      assert pos.Floor == k + 1;
    } else {
      assert pos.Floor == k;
    }
  }

  // ---- The bootstrap interval -------------------------------------------------------------------------------

  datatype MeanCI = MeanCI(mean: real, lo: real, hi: real, n: nat)

  ghost predicate InRange(vals: seq<real>, least: real, most: real) {
    forall i :: 0 <= i < |vals| ==> least <= vals[i] <= most
  }

  function Sum(vals: seq<real>): real
    decreases |vals|
  {
    if vals == [] then 0.0 else Sum(vals[..|vals| - 1]) + vals[|vals| - 1]
  }

  /** A sum of `n` values from a range, divided by `n`, lies in the range. */
  lemma MeanWithin(total: real, n: nat, least: real, most: real)
    requires n > 0 && n as real * least <= total <= n as real * most
    ensures least <= total / n as real <= most
  {
    var r, s := total / n as real, n as real;
    assert r * s == total;
    assert (least - r) * s == s * least - r * s && (r - most) * s == r * s - s * most;
    if r < least {
      Positive(least - r, s);
    }
    if r > most {
      Positive(r - most, s);
    }
  }

  lemma OneMore(total: real, j: nat, x: real, least: real, most: real)
    requires j as real * least <= total <= j as real * most && least <= x <= most
    ensures (j + 1) as real * least <= total + x <= (j + 1) as real * most
  {
    assert (j + 1) as real * least == j as real * least + least;
    assert (j + 1) as real * most == j as real * most + most;
  }

  lemma {:induction false} SumWithin(vals: seq<real>, least: real, most: real)
    requires InRange(vals, least, most)
    ensures |vals| as real * least <= Sum(vals) <= |vals| as real * most
    decreases |vals|
  {
    if vals != [] {
      var init := vals[..|vals| - 1];
      SumWithin(init, least, most);
      OneMore(Sum(init), |init|, vals[|vals| - 1], least, most);
    }
  }

  /** The first `n` values drawn. */
  function Drawn(vals: seq<real>, draw: nat -> nat, n: nat): seq<real>
    requires forall i :: draw(i) < |vals|
  {
    seq(n, i requires 0 <= i < n => vals[draw(i)])
  }

  /** One resample: the mean of `n` draws with replacement. */
  method ResampleMean(vals: seq<real>, draw: nat -> nat, ghost least: real, ghost most: real) returns (mean: real)
    requires vals != [] && (forall i :: draw(i) < |vals|) && InRange(vals, least, most)
    ensures least <= mean <= most && mean == Sum(Drawn(vals, draw, |vals|)) / |vals| as real
  {
    var total, n := 0.0, |vals|;
    for i := 0 to n
      invariant total == Sum(Drawn(vals, draw, i))
    {
      DrawnNext(vals, draw, i);
      total := total + vals[draw(i)];
    }
    SumWithin(Drawn(vals, draw, n), least, most);
    MeanWithin(total, n, least, most);
    return total / n as real;
  }

  lemma DrawnNext(vals: seq<real>, draw: nat -> nat, n: nat)
    requires forall i :: draw(i) < |vals|
    ensures Sum(Drawn(vals, draw, n + 1)) == Sum(Drawn(vals, draw, n)) + vals[draw(n)]
  {
    assert Drawn(vals, draw, n + 1)[..n] == Drawn(vals, draw, n);
  }

  /** The mean of the `a`-th resample. */
  function ResampledMean(values: seq<real>, draws: (nat, nat) -> nat, a: nat): real
    requires values != [] && forall a, i :: draws(a, i) < |values|
  {
    Sum(Drawn(values, i => draws(a, i), |values|)) / |values| as real
  }

  predicate Lower(x: real, y: real) {
    x < y
  }

  lemma SortedPrepend(x: real, xs: seq<real>)
    requires Sorted(xs) && (xs != [] ==> x <= xs[0])
    ensures Sorted([x] + xs)
  {
    var all := [x] + xs;
    forall i, j | 0 <= i <= j < |all| ensures all[i] <= all[j] {
      assert j > 0 ==> xs[0] <= xs[j - 1];
      assert i > 0 ==> xs[i - 1] <= xs[j - 1];
    }
  }

  lemma {:induction false} InsertKeeps(x: real, xs: seq<real>)
    ensures multiset(Insert(Lower, x, xs)) == multiset(xs) + multiset{x}
    ensures var all := Insert(Lower, x, xs); all != [] && (all[0] == x || (xs != [] && all[0] == xs[0]))
  {
    if xs != [] {
      assert xs == [xs[0]] + xs[1..];
      InsertKeeps(x, xs[1..]);
    }
  }

  lemma {:induction false} InsertSorts(x: real, xs: seq<real>)
    requires Sorted(xs)
    ensures Sorted(Insert(Lower, x, xs))
  {
    if xs == [] {
    } else if Lower(x, xs[0]) {
      SortedPrepend(x, xs);
    } else {
      InsertSorts(x, xs[1..]);
      InsertKeeps(x, xs[1..]);
      SortedPrepend(xs[0], Insert(Lower, x, xs[1..]));
    }
  }

  lemma {:induction false} SortSorts(xs: seq<real>)
    ensures Sorted(Sort(Lower, xs)) && multiset(Sort(Lower, xs)) == multiset(xs)
  {
    if xs != [] {
      SortSorts(xs[1..]);
      InsertSorts(xs[0], Sort(Lower, xs[1..]));
      InsertKeeps(xs[0], Sort(Lower, xs[1..]));
      assert xs == [xs[0]] + xs[1..];
    }
  }

  lemma SortWithin(xs: seq<real>, least: real, most: real)
    requires InRange(xs, least, most)
    ensures InRange(Sort(Lower, xs), least, most) && |Sort(Lower, xs)| == |xs|
  {
    SortSorts(xs);
    var sorted := Sort(Lower, xs);
    assert |sorted| == |multiset(sorted)| == |xs|;
    forall i | 0 <= i < |sorted| ensures least <= sorted[i] <= most {
      assert sorted[i] in multiset(sorted);
    }
  }

  /**
  `bootstrap_mean_ci`: for a confidence in [0, 1] the interval has its ends in order and, with at least one
  resample, inside the sample's range, where the mean lies too. `draws` are the generator's numbers.
  */
  method BootstrapMeanCI(values: seq<real>, iterations: nat, confidence: real, draws: (nat, nat) -> nat,
                         ghost least: real, ghost most: real)
    returns (ci: MeanCI, ghost means: seq<real>)
    requires 0.0 <= confidence <= 1.0 && InRange(values, least, most)
    requires forall a, i :: values != [] ==> draws(a, i) < |values|
    ensures ci.n == |values| && (values == [] ==> ci == MeanCI(0.0, 0.0, 0.0, 0))
    ensures ci.lo <= ci.hi
    ensures values != [] ==> least <= ci.mean <= most && ci.mean == Sum(values) / |values| as real
    ensures values != [] && (iterations > 0 || |values| == 1) ==> least <= ci.lo && ci.hi <= most
    ensures |values| == 1 ==> ci.lo == ci.hi == ci.mean
    ensures |values| > 1 ==>
              && |means| == iterations
              && (forall a :: 0 <= a < iterations ==> means[a] == ResampledMean(values, draws, a))
              && IsInterval(means, confidence, ci.lo, ci.hi)
  {
    means := [];
    var n := |values|;
    if n == 0 {
      return MeanCI(0.0, 0.0, 0.0, 0), means;
    }
    SumWithin(values, least, most);
    MeanWithin(Sum(values), n, least, most);
    var point := Sum(values) / n as real;
    if n == 1 {
      return MeanCI(point, point, point, 1), means;
    }
    var resampled := [];
    for a := 0 to iterations
      invariant |resampled| == a && InRange(resampled, least, most)
      invariant forall b :: 0 <= b < a ==> resampled[b] == ResampledMean(values, draws, b)
    {
      var mean := ResampleMean(values, i => draws(a, i), least, most);
      resampled := resampled + [mean];
    }
    var lo, hi := Interval(resampled, confidence, least, most);
    return MeanCI(point, lo, hi, n), resampled;
  }

  /** The ends are the quantiles that leave out half of what the confidence leaves out on either side. */
  ghost predicate IsInterval(means: seq<real>, confidence: real, lo: real, hi: real)
    requires 0.0 <= confidence <= 1.0
  {
    exists sorted :: Sorted(sorted) && multiset(sorted) == multiset(means)
                     && lo == Percentile(sorted, (1.0 - confidence) / 2.0) &&
                        hi == Percentile(sorted, (1.0 + confidence) / 2.0)
  }

  method Interval(means: seq<real>, confidence: real, ghost least: real, ghost most: real) returns (lo: real, hi: real)
    requires 0.0 <= confidence <= 1.0 && InRange(means, least, most)
    ensures lo <= hi && (means != [] ==> least <= lo && hi <= most)
    ensures IsInterval(means, confidence, lo, hi)
  {
    var sorted := Sort(Lower, means);
    SortSorts(means);
    SortWithin(means, least, most);
    var alpha := (1.0 - confidence) / 2.0;
    PercentileGrows(sorted, alpha, 1.0 - alpha);
    if sorted != [] {
      PercentileBounds(sorted, alpha);
      PercentileBounds(sorted, 1.0 - alpha);
    }
    assert 1.0 - alpha == (1.0 + confidence) / 2.0;
    return Percentile(sorted, alpha), Percentile(sorted, 1.0 - alpha);
  }
}
