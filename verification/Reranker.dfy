/** The hybrid reranker (src/data_olympus/embeddings.py:240-315), over the reals. */
module Reranker {
  import opened Common
  import opened Ranking
  import opened Cosine

  /** A search hit; a later rank class never overtakes an earlier one, and lower scores are better. */
  datatype Hit = Hit(id: string, score: real, rankClass: int, rest: string)

  // ---- The goodness of the scores -----------------------------------------------------------------------

  function Least(hits: seq<Hit>): (lo: real)
    requires hits != []
    ensures forall h :: h in hits ==> lo <= h.score
    ensures exists h :: h in hits && h.score == lo
  {
    if |hits| == 1 then hits[0].score
    else if Least(hits[1..]) < hits[0].score then Least(hits[1..]) else hits[0].score
  }

  function Greatest(hits: seq<Hit>): (hi: real)
    requires hits != []
    ensures forall h :: h in hits ==> h.score <= hi
    ensures exists h :: h in hits && h.score == hi
  {
    if |hits| == 1 then hits[0].score
    else if Greatest(hits[1..]) > hits[0].score then Greatest(hits[1..]) else hits[0].score
  }

  function Good(score: real, lo: real, hi: real): real {
    if hi - lo == 0.0 then 1.0 else (hi - score) / (hi - lo)
  }

  lemma GoodBounds(score: real, lo: real, hi: real)
    requires lo <= score <= hi
    ensures 0.0 <= Good(score, lo, hi) <= 1.0
    ensures score == lo ==> Good(score, lo, hi) == 1.0
    ensures score == hi && hi != lo ==> Good(score, lo, hi) == 0.0
    ensures hi != lo ==> Good(score, lo, hi) * (hi - lo) == hi - score
  {
    var spread := hi - lo;
    if spread != 0.0 {
      var r := (hi - score) / spread;
      assert r * spread == hi - score;
      QuotientBounded(hi - score, spread);
      if r < 0.0 {
        Positive(-r, spread);
      }
    }
  }

  /** `_normalise_bm25`: a dictionary by id, so of two hits with one id the later counts. */
  function Goodness(hits: seq<Hit>, lo: real, hi: real): map<string, real>
    decreases |hits|
  {
    if hits == [] then map[]
    else Goodness(hits[..|hits| - 1], lo, hi)[hits[|hits| - 1].id := Good(hits[|hits| - 1].score, lo, hi)]
  }

  function NormaliseBm25(hits: seq<Hit>): map<string, real> {
    if hits == [] then map[] else Goodness(hits, Least(hits), Greatest(hits))
  }

  lemma {:induction false} GoodnessBounds(hits: seq<Hit>, lo: real, hi: real)
    requires forall h :: h in hits ==> lo <= h.score <= hi
    ensures forall id :: id in Goodness(hits, lo, hi) <==> exists h :: h in hits && h.id == id
    ensures forall id :: id in Goodness(hits, lo, hi) ==> 0.0 <= Goodness(hits, lo, hi)[id] <= 1.0
    decreases |hits|
  {
    if hits != [] {
      var init, last := hits[..|hits| - 1], hits[|hits| - 1];
      GoodnessBounds(init, lo, hi);
      GoodBounds(last.score, lo, hi);
      assert forall h :: h in hits <==> h in init || h == last;
    }
  }

  /** Where hits with one id have one score, the goodness of a hit is that of its own score. */
  lemma {:induction false} GoodnessOwn(hits: seq<Hit>, lo: real, hi: real, h: Hit)
    requires h in hits && forall g :: g in hits && g.id == h.id ==> g.score == h.score
    ensures h.id in Goodness(hits, lo, hi) && Goodness(hits, lo, hi)[h.id] == Good(h.score, lo, hi)
    decreases |hits|
  {
    var init, last := hits[..|hits| - 1], hits[|hits| - 1];
    if last.id != h.id {
      assert h in init;
      GoodnessOwn(init, lo, hi, h);
    }
  }

  /** 1 for the best score of the pool and, unless all are equal, 0 for the worst. */
  lemma GoodnessEnds(hits: seq<Hit>, h: Hit)
    requires h in hits && forall g :: g in hits && g.id == h.id ==> g.score == h.score
    ensures h.id in NormaliseBm25(hits)
    ensures h.score == Least(hits) ==> NormaliseBm25(hits)[h.id] == 1.0
    ensures h.score == Greatest(hits) && Least(hits) != Greatest(hits) ==> NormaliseBm25(hits)[h.id] == 0.0
  {
    GoodnessOwn(hits, Least(hits), Greatest(hits), h);
    GoodBounds(h.score, Least(hits), Greatest(hits));
  }

  // ---- The blend ------------------------------------------------------------------------------------------

  /** What the reranker is built from. */
  datatype Model = Model(embed: string -> Option<Vector>, vector: string -> Option<Vector>, weight: real,
                         sqrt: real -> real)

  /** Half the shifted similarity, or 0 where there is none. */
  ghost function CosinePart(m: Model, query: Option<Vector>, id: string): real {
    if query.Some? && m.vector(id).Some? && |m.vector(id).value| == |query.value|
    then (CosineOf(query.value, m.vector(id).value, m.sqrt) + 1.0) / 2.0
    else 0.0
  }

  ghost function Blended(m: Model, query: Option<Vector>, goodness: map<string, real>, id: string): real {
    Mix(m.weight, if id in goodness then goodness[id] else 0.0, CosinePart(m, query, id))
  }

  lemma PartOf(w: real, x: real)
    requires 0.0 <= w && 0.0 <= x <= 1.0
    ensures 0.0 <= w * x <= w
  {
    TimesMonotone(0.0, x, w);
    TimesMonotone(x, 1.0, w);
    assert 0.0 * w == 0.0 && 1.0 * w == w && x * w == w * x;
  }

  lemma ScaledPart(w: real, x: real) returns (t: real)
    requires 0.0 <= w && 0.0 <= x <= 1.0
    ensures t == w * x && 0.0 <= t <= w
  {
    PartOf(w, x);
    t := w * x;
  }

  lemma SumOfParts(v: real, w: real, t: real, u: real)
    requires v + w == 1.0 && 0.0 <= t <= v && 0.0 <= u <= w
    ensures 0.0 <= t + u <= 1.0
  {
  }

  lemma GoodnessInRange(hits: seq<Hit>, id: string)
    requires id in NormaliseBm25(hits)
    ensures 0.0 <= NormaliseBm25(hits)[id] <= 1.0
  {
    GoodnessBounds(hits, Least(hits), Greatest(hits));
  }

  lemma CosinePartInRange(m: Model, query: Option<Vector>, id: string)
    requires SquareRoots(m.sqrt)
    ensures 0.0 <= CosinePart(m, query, id) <= 1.0
  {
    if query.Some? && m.vector(id).Some? && |m.vector(id).value| == |query.value| {
      CosineInRange(query.value, m.vector(id).value, m.sqrt);
    }
  }

  /** With a weight in [0, 1] every blended score lies in [0, 1]. */
  lemma BlendedInRange(m: Model, query: Option<Vector>, hits: seq<Hit>, id: string)
    requires SquareRoots(m.sqrt) && 0.0 <= m.weight <= 1.0
    ensures 0.0 <= Blended(m, query, NormaliseBm25(hits), id) <= 1.0
  {
    var good := if id in NormaliseBm25(hits) then NormaliseBm25(hits)[id] else 0.0;
    if id in NormaliseBm25(hits) {
      GoodnessInRange(hits, id);
    }
    CosinePartInRange(m, query, id);
    MixInRange(m.weight, good, CosinePart(m, query, id));
  }

  function Mix(w: real, x: real, y: real): real {
    (1.0 - w) * x + w * y
  }

  /** The weight moves the blend from the goodness to the similarity, in a straight line. */
  lemma MixMeans(w: real, x: real, y: real)
    ensures Mix(0.0, x, y) == x && Mix(1.0, x, y) == y && Mix(w, x, y) == x + w * (y - x)
  {
    assert (1.0 - w) * x == x - w * x;
    assert w * (y - x) == w * y - w * x;
  }

  lemma MixInRange(w: real, x: real, y: real)
    requires 0.0 <= w <= 1.0 && 0.0 <= x <= 1.0 && 0.0 <= y <= 1.0
    ensures 0.0 <= Mix(w, x, y) <= 1.0
  {
    var v := 1.0 - w;
    var t := ScaledPart(v, x);
    var u := ScaledPart(w, y);
    SumOfParts(v, w, t, u);
  }

  method Blend(m: Model, query: Option<Vector>, goodness: map<string, real>, h: Hit) returns (blended: real)
    requires SquareRoots(m.sqrt)
    ensures blended == Blended(m, query, goodness, h.id)
  {
    var good := if h.id in goodness then goodness[h.id] else 0.0;
    var component := 0.0;
    if query.Some? {
      var vector := m.vector(h.id);
      if vector.Some? && |vector.value| == |query.value| {
        var similarity := Similarity(query.value, vector.value, m.sqrt);
        component := (similarity.value + 1.0) / 2.0;
      }
    }
    return Mix(m.weight, good, component);
  }

  // ---- The order --------------------------------------------------------------------------------------------

  /** A scored hit: its class, its blended score and its place in the incoming list. */
  datatype Scored = Scored(rankClass: int, blended: real, place: nat)

  /** The sort key: class, then blended score downwards, then incoming place. */
  predicate Ahead(x: Scored, y: Scored) {
    || x.rankClass < y.rankClass
    || (x.rankClass == y.rankClass && x.blended > y.blended)
    || (x.rankClass == y.rankClass && x.blended == y.blended && x.place < y.place)
  }

  lemma AheadIsTotal()
    ensures StrictTotal(Ahead)
  {
  }

  function Rescored(h: Hit, blended: real): Hit {
    h.(score := -blended)
  }

  /** `out` is the hits at the given places, rescored. */
  ghost predicate Rearranged(hits: seq<Hit>, out: seq<Hit>, places: seq<nat>, blend: string -> real) {
    && |out| == |places| == |hits| && NoRepeats(places)
    && (forall k :: 0 <= k < |out| ==>
          places[k] < |hits| && out[k] == Rescored(hits[places[k]], blend(hits[places[k]].id)))
  }

  /** Classes in order, scores ascending within a class, and ties as they came in. */
  ghost predicate InOrder(out: seq<Hit>, places: seq<nat>) {
    |out| == |places| && forall j, k :: 0 <= j < k < |out| ==>
      || out[j].rankClass < out[k].rankClass
      || (out[j].rankClass == out[k].rankClass && out[j].score < out[k].score)
      || (out[j].rankClass == out[k].rankClass && out[j].score == out[k].score && places[j] < places[k])
  }

  method ScoreAll(m: Model, query: Option<Vector>, hits: seq<Hit>) returns (scored: seq<Scored>)
    requires SquareRoots(m.sqrt)
    ensures |scored| == |hits| && NoRepeats(scored)
    ensures forall i :: 0 <= i < |hits| ==>
              scored[i] == Scored(hits[i].rankClass, Blended(m, query, NormaliseBm25(hits), hits[i].id), i)
  {
    var goodness := NormaliseBm25(hits);
    scored := [];
    for i := 0 to |hits|
      invariant |scored| == i
      invariant forall j :: 0 <= j < i ==>
                  scored[j] == Scored(hits[j].rankClass, Blended(m, query, goodness, hits[j].id), j)
    {
      var blended := Blend(m, query, goodness, hits[i]);
      scored := scored + [Scored(hits[i].rankClass, blended, i)];
    }
  }

  /** Sorting the scored hits gives each place once, in order. */
  lemma SortedPlaces(scored: seq<Scored>, sorted: seq<Scored>, k: nat)
    requires NoRepeats(scored) && sorted == Sort(Ahead, scored) && k < |sorted|
    requires forall i :: 0 <= i < |scored| ==> scored[i].place == i
    ensures |sorted| == |scored| && Ascending(Ahead, sorted) && sorted[k].place < |scored| &&
            sorted[k] == scored[sorted[k].place]
  {
    AheadIsTotal();
    SortAscends(Ahead, scored);
    assert sorted[k] in Elements(sorted);
    var i :| 0 <= i < |scored| && scored[i] == sorted[k];
  }

  method SortScored(scored: seq<Scored>) returns (sorted: seq<Scored>)
    requires forall i :: 0 <= i < |scored| ==> scored[i].place == i
    ensures |sorted| == |scored| && Ascending(Ahead, sorted)
    ensures forall k :: 0 <= k < |sorted| ==> sorted[k].place < |scored| && sorted[k] == scored[sorted[k].place]
    ensures forall j, k :: 0 <= j < k < |sorted| ==> sorted[j].place != sorted[k].place
  {
    AheadIsTotal();
    assert NoRepeats(scored);
    SortAscends(Ahead, scored);
    sorted := Sort(Ahead, scored);
    forall k | 0 <= k < |sorted| ensures sorted[k].place < |scored| && sorted[k] == scored[sorted[k].place] {
      SortedPlaces(scored, sorted, k);
    }
    forall j, k | 0 <= j < k < |sorted| ensures sorted[j].place != sorted[k].place {
      assert Ahead(sorted[j], sorted[k]);
      assert sorted[j] == scored[sorted[j].place] && sorted[k] == scored[sorted[k].place];
    }
  }

  /** At weight 0 the order within a class is that of the scores, at weight 1 that of the similarities. */
  lemma OrderAtTheEnds(m: Model, query: Option<Vector>, hits: seq<Hit>, out: seq<Hit>, places: seq<nat>, j: nat, k: nat)
    requires hits != [] && InOrder(out, places) && j < k < |out| && out[j].rankClass == out[k].rankClass
    requires Rearranged(hits, out, places, id => Blended(m, query, NormaliseBm25(hits), id))
    ensures var good := NormaliseBm25(hits);
            && out[j].id in good && out[k].id in good
            && (m.weight == 0.0 ==> good[out[j].id] >= good[out[k].id])
            && (m.weight == 1.0 ==> CosinePart(m, query, out[j].id) >= CosinePart(m, query, out[k].id))
  {
    GoodnessBounds(hits, Least(hits), Greatest(hits));
    var good, x, y := NormaliseBm25(hits), out[j].id, out[k].id;
    assert hits[places[j]] in hits && hits[places[k]] in hits;
    MixMeans(m.weight, good[x], CosinePart(m, query, x));
    MixMeans(m.weight, good[y], CosinePart(m, query, y));
    assert out[j].score <= out[k].score;
  }

  /**
  The reranker: the hits it was given, each once and changed in nothing but the score, in order of class,
  then of blended score downwards, then of arrival.
  */
  method Rerank(m: Model, queryText: string, hits: seq<Hit>) returns (out: seq<Hit>, ghost places: seq<nat>)
    requires SquareRoots(m.sqrt)
    ensures hits == [] ==> out == []
    ensures hits != [] ==> Rearranged(hits, out, places, id => Blended(m, m.embed(queryText), NormaliseBm25(hits), id))
    ensures hits != [] ==> InOrder(out, places)
    ensures 0.0 <= m.weight <= 1.0 ==> forall k :: 0 <= k < |out| ==> -1.0 <= out[k].score <= 0.0
  {
    if hits == [] {
      return hits, [];
    }
    var query := m.embed(queryText);
    var scored := ScoreAll(m, query, hits);
    var sorted := SortScored(scored);
    out, places := RescoreAll(hits, sorted);
    if 0.0 <= m.weight <= 1.0 {
      forall k | 0 <= k < |out| ensures -1.0 <= out[k].score <= 0.0 {
        BlendedInRange(m, query, hits, hits[places[k]].id);
      }
    }
  }

  method RescoreAll(hits: seq<Hit>, sorted: seq<Scored>) returns (out: seq<Hit>, ghost places: seq<nat>)
    requires Ascending(Ahead, sorted)
    requires forall k :: 0 <= k < |sorted| ==>
               sorted[k].place < |hits| && sorted[k].rankClass == hits[sorted[k].place].rankClass
    ensures |out| == |places| == |sorted| && InOrder(out, places)
    ensures forall k :: 0 <= k < |sorted| ==>
              places[k] == sorted[k].place && out[k] == Rescored(hits[sorted[k].place], sorted[k].blended)
  {
    places := seq(|sorted|, k requires 0 <= k < |sorted| => sorted[k].place);
    out := [];
    for k := 0 to |sorted|
      invariant |out| == k
      invariant forall j :: 0 <= j < k ==> out[j] == Rescored(hits[sorted[j].place], sorted[j].blended)
    {
      out := out + [Rescored(hits[sorted[k].place], sorted[k].blended)];
    }
    Ordered(hits, sorted, out, places);
  }

  lemma Ordered(hits: seq<Hit>, sorted: seq<Scored>, out: seq<Hit>, places: seq<nat>)
    requires |out| == |sorted| == |places| && Ascending(Ahead, sorted)
    requires forall k :: 0 <= k < |sorted| ==>
               && sorted[k].place < |hits| && places[k] == sorted[k].place &&
                  sorted[k].rankClass == hits[sorted[k].place].rankClass
               && out[k] == Rescored(hits[sorted[k].place], sorted[k].blended)
    ensures InOrder(out, places)
  {
  }

  // ---- What a later stage sees --------------------------------------------------------------------------------

  /** The key every later stage sorts by (src/data_olympus/index.py:459). */
  predicate NotAfter(x: Hit, y: Hit) {
    x.rankClass < y.rankClass || (x.rankClass == y.rankClass && x.score <= y.score)
  }

  /** A stable sort: an element goes before the first one it is not after. */
  function Place(x: Hit, xs: seq<Hit>): seq<Hit> {
    if xs == [] then [x] else if NotAfter(x, xs[0]) then [x] + xs else [xs[0]] + Place(x, xs[1..])
  }

  function StableSort(xs: seq<Hit>): seq<Hit> {
    if xs == [] then [] else Place(xs[0], StableSort(xs[1..]))
  }

  /** The hits of one class and one score, as they stand. */
  function Alike(xs: seq<Hit>, y: Hit): seq<Hit> {
    if xs == [] then [] else With(xs[0], y, Alike(xs[1..], y))
  }

  function With(x: Hit, y: Hit, rest: seq<Hit>): seq<Hit> {
    if x.rankClass == y.rankClass && x.score == y.score then [x] + rest else rest
  }

  ghost predicate Settled(xs: seq<Hit>) {
    forall j, k :: 0 <= j < k < |xs| ==> NotAfter(xs[j], xs[k])
  }

  lemma {:induction false} PlaceHolds(x: Hit, xs: seq<Hit>)
    ensures multiset(Place(x, xs)) == multiset(xs) + multiset{x}
  {
    if xs != [] && !NotAfter(x, xs[0]) {
      PlaceHolds(x, xs[1..]);
      assert xs == [xs[0]] + xs[1..];
    }
  }

  lemma SortedFrom(x: Hit, xs: seq<Hit>)
    requires Settled(xs) && (xs != [] ==> NotAfter(x, xs[0]))
    ensures Settled([x] + xs)
  {
  }

  lemma {:induction false} PlaceSorts(x: Hit, xs: seq<Hit>)
    requires Settled(xs)
    ensures Settled(Place(x, xs))
  {
    if xs != [] {
      if NotAfter(x, xs[0]) {
        SortedFrom(x, xs);
      } else {
        assert Settled(xs[1..]) && (|xs| > 1 ==> NotAfter(xs[0], xs[1]));
        PlaceSorts(x, xs[1..]);
        SortedFrom(xs[0], Place(x, xs[1..]));
      }
    }
  }

  lemma AlikeFrom(x: Hit, xs: seq<Hit>, y: Hit)
    ensures Alike([x] + xs, y) == With(x, y, Alike(xs, y))
  {
    assert ([x] + xs)[1..] == xs;
  }

  lemma {:induction false} PlaceKeepsAlike(x: Hit, xs: seq<Hit>, y: Hit)
    ensures Alike(Place(x, xs), y) == With(x, y, Alike(xs, y))
  {
    AlikeFrom(x, xs, y);
    if xs != [] && !NotAfter(x, xs[0]) {
      PlaceKeepsAlike(x, xs[1..], y);
      AlikeFrom(xs[0], Place(x, xs[1..]), y);
    }
  }

  /** The later sort rearranges the hits by class and score. */
  lemma {:induction false} StableSortSorts(xs: seq<Hit>)
    ensures Settled(StableSort(xs)) && multiset(StableSort(xs)) == multiset(xs)
  {
    if xs != [] {
      StableSortSorts(xs[1..]);
      PlaceHolds(xs[0], StableSort(xs[1..]));
      PlaceSorts(xs[0], StableSort(xs[1..]));
      assert xs == [xs[0]] + xs[1..];
    }
  }

  /** It leaves hits of one class and score in their order. */
  lemma {:induction false} StableSortIsStable(xs: seq<Hit>, y: Hit)
    ensures Alike(StableSort(xs), y) == Alike(xs, y)
  {
    if xs != [] {
      StableSortIsStable(xs[1..], y);
      PlaceKeepsAlike(xs[0], StableSort(xs[1..]), y);
    }
  }

  lemma {:induction false} SortedStays(xs: seq<Hit>)
    requires Settled(xs)
    ensures StableSort(xs) == xs
  {
    if xs != [] {
      SortedStays(xs[1..]);
      if |xs| > 1 {
        assert NotAfter(xs[0], xs[1]);
      }
    }
  }

  /** A later stable sort by class and score keeps the reranked order. */
  lemma LaterSortKeepsOrder(out: seq<Hit>, places: seq<nat>)
    requires InOrder(out, places)
    ensures StableSort(out) == out
  {
    SortedStays(out);
  }

  /** A hit of a later class never stands before one of an earlier class. */
  lemma PrimariesFirst(out: seq<Hit>, places: seq<nat>, j: nat, k: nat)
    requires InOrder(out, places) && j < |out| && k < |out| && out[j].rankClass < out[k].rankClass
    ensures j < k
  {
  }

  /** No hit is lost or doubled: every incoming place is found, and `Rearranged` says not twice. */
  lemma EveryPlaceFound(hits: seq<Hit>, out: seq<Hit>, places: seq<nat>, blend: string -> real, i: nat)
    requires Rearranged(hits, out, places, blend) && i < |hits|
    ensures i in places
  {
    CountPlaces(places);
    FirstNumbers(|hits|);
    assert Elements(places) <= Numbers(|hits|);
    FullSubset(Elements(places), Numbers(|hits|));
    assert i in Elements(places);
  }

  function Numbers(n: nat): set<nat> {
    if n == 0 then {} else Numbers(n - 1) + {n - 1}
  }

  lemma {:induction false} FirstNumbers(n: nat)
    ensures |Numbers(n)| == n && forall i: nat :: i in Numbers(n) <==> i < n
  {
    if n > 0 {
      FirstNumbers(n - 1);
    }
  }

  lemma {:induction false} CountPlaces(places: seq<nat>)
    requires NoRepeats(places)
    ensures |Elements(places)| == |places|
    decreases |places|
  {
    if places != [] {
      var init, last := places[..|places| - 1], places[|places| - 1];
      CountPlaces(init);
      assert last !in init;
      assert Elements(places) == Elements(init) + {last};
    }
  }

  lemma FullSubset(a: set<nat>, b: set<nat>)
    requires a <= b && |a| == |b|
    ensures a == b
  {
    assert b == a + (b - a);
    assert |b - a| == 0;
  }
}
