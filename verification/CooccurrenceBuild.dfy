/**
The builder of src/data_olympus/cooccurrence.py: dense integer keys, a vocabulary prefilter, a counter
that spills to disk and candidate lists pruned on the way, proved to build the plain table.
*/
module CooccurrenceBuild {
  import opened Ranking
  import opened Lexical
  import opened Cooccurrence
  import opened PairCounter

  datatype Stats = Stats(documents: nat, vocabulary: set<Token>, counted: set<Token>, spills: nat, maxResident: nat)

  // ---- Token lists -------------------------------------------------------------------------

  /** `_capped_doc_tokens`: the kept tokens of one document, alphabetically. */
  method CappedDocTokens(tokens: set<Token>, cap: int) returns (ordered: seq<Token>)
    ensures Ascending(Before, ordered) && Elements(ordered) == Capped(tokens, cap)
    ensures |ordered| == |Capped(tokens, cap)| && (cap > 0 ==> |ordered| <= cap)
    ensures if cap > 0 && |tokens| > cap then KeepsLongest(tokens, cap, Elements(ordered))
            else Elements(ordered) == tokens
  {
    OrdersAreTotal();
    var list := ListOf(tokens);
    SortAscends(Before, list);
    ordered := Sort(Before, list);
    if cap > 0 && |ordered| > cap {
      SortAscends(KeptFirst, list);
      var kept := Sort(KeptFirst, list);
      TakeIsTop(KeptFirst, kept, cap);
      CappedMeans(tokens, cap, kept[..cap]);
      AscendingNoRepeats(KeptFirst, kept[..cap]);
      SortAscends(Before, kept[..cap]);
      ordered := Sort(Before, kept[..cap]);
    }
    AscendingCard(Before, ordered);
  }

  /** Count each token of one list once more. */
  method CountList(before: map<Token, nat>, ordered: seq<Token>) returns (after: map<Token, nat>)
    requires Ascending(Before, ordered) && forall t :: t in before ==> before[t] > 0
    ensures forall t :: InMap(after, t) == InMap(before, t) + if t in Elements(ordered) then 1 else 0
    ensures forall t :: t in after ==> after[t] > 0
  {
    OrdersAreTotal();
    AscendingNoRepeats(Before, ordered);
    after := before;
    for j := 0 to |ordered|
      invariant forall t :: InMap(after, t) == InMap(before, t) + if t in Elements(ordered[..j]) then 1 else 0
      invariant forall t :: t in after ==> after[t] > 0
    {
      assert ordered[..j + 1] == ordered[..j] + [ordered[j]];
      assert Elements(ordered[..j + 1]) == Elements(ordered[..j]) + {ordered[j]};
      assert ordered[j] !in Elements(ordered[..j]);
      after := after[ordered[j] := InMap(after, ordered[j]) + 1];
    }
    assert ordered[..|ordered|] == ordered;
  }

  /** Pass one: the token lists and the number of documents each token occurs in. */
  method CountTerms(docs: seq<set<Token>>, cap: int, ghost capped: seq<set<Token>>)
    returns (lists: seq<seq<Token>>, termCounts: map<Token, nat>)
    requires |capped| == |docs| && forall i :: 0 <= i < |docs| ==> capped[i] == Capped(docs[i], cap)
    ensures |lists| == |docs|
    ensures forall i :: 0 <= i < |lists| ==>
              Ascending(Before, lists[i]) && Elements(lists[i]) == capped[i] && (cap > 0 ==> |lists[i]| <= cap)
    ensures forall t :: InMap(termCounts, t) == Occurrences(capped, t)
    ensures forall t :: t in termCounts ==> termCounts[t] > 0
  {
    lists, termCounts := [], map[];
    for i := 0 to |docs|
      invariant |lists| == i
      invariant forall j :: 0 <= j < i ==> IsList(lists[j], capped[j], cap)
      invariant Counts(termCounts, capped[..i])
    {
      var ordered := CappedDocTokens(docs[i], cap);
      ghost var before := termCounts;
      termCounts := CountList(termCounts, ordered);
      lists := lists + [ordered];
      CountsGrow(before, termCounts, capped, i);
    }
    assert capped[..|docs|] == capped;
  }

  ghost predicate IsList(list: seq<Token>, tokens: set<Token>, cap: int) {
    Ascending(Before, list) && Elements(list) == tokens && (cap > 0 ==> |list| <= cap)
  }

  ghost predicate Counts(termCounts: map<Token, nat>, docs: seq<set<Token>>) {
    && (forall t :: InMap(termCounts, t) == Occurrences(docs, t))
    && (forall t :: t in termCounts ==> termCounts[t] > 0)
  }

  lemma CountsGrow(before: map<Token, nat>, after: map<Token, nat>, docs: seq<set<Token>>, i: nat)
    requires i < |docs| && Counts(before, docs[..i]) && forall t :: t in after ==> after[t] > 0
    requires forall t :: InMap(after, t) == InMap(before, t) + if t in docs[i] then 1 else 0
    ensures Counts(after, docs[..i + 1])
  {
    assert docs[..i + 1][..i] == docs[..i];
  }

  function InMap<K>(m: map<K, nat>, k: K): nat {
    if k in m then m[k] else 0
  }

  // ---- Dense pair keys -----------------------------------------------------------------------

  function Key(a: nat, b: nat, v: nat): nat {
    a * v + b
  }

  function First(key: nat, v: nat): nat
    requires v > 0
  {
    key / v
  }

  function Second(key: nat, v: nat): nat
    requires v > 0
  {
    key % v
  }

  lemma Distribute(q: nat, k: nat, v: nat)
    ensures (q + k) * v == q * v + k * v
  {
  }

  lemma AtLeastOnce(k: nat, v: nat)
    requires k >= 1
    ensures k * v >= v
  {
    Distribute(1, k - 1, v);
  }

  lemma LargerMultiple(a: nat, q: nat, v: nat)
    requires a > q
    ensures a * v >= q * v + v
  {
    var k := a - q;
    Distribute(q, k, v);
    AtLeastOnce(k, v);
  }

  /** Quotient and remainder are unique. */
  lemma UniqueQuotient(a: nat, b: nat, q: nat, r: nat, v: nat)
    requires a * v + b == q * v + r && b < v && r < v
    ensures a == q && b == r
  {
    if a > q {
      LargerMultiple(a, q, v);
    } else if q > a {
      LargerMultiple(q, a, v);
    }
  }

  lemma KeyDecodes(a: nat, b: nat, v: nat)
    requires b < v
    ensures First(Key(a, b, v), v) == a && Second(Key(a, b, v), v) == b
  {
    var key := Key(a, b, v);
    var q, r := key / v, key % v;
    assert key == q * v + r;
    UniqueQuotient(a, b, q, r, v);
  }

  /** Keys and pairs of ids below the vocabulary size determine each other. */
  lemma KeyIsPair(a: nat, b: nat, v: nat, key: nat)
    requires b < v
    ensures key == Key(a, b, v) <==> First(key, v) == a && Second(key, v) == b
  {
    KeyDecodes(a, b, v);
  }

  predicate Less(x: nat, y: nat) {
    x < y
  }

  /** `n * (n - 1) / 2`, the number of pairs of `n` things. */
  function PairsOf(n: nat): nat {
    if n == 0 then 0 else PairsOf(n - 1) + n - 1
  }

  lemma {:induction false} PairsOfGrows(m: nat, n: nat)
    requires m <= n
    ensures PairsOf(m) <= PairsOf(n) && 2 * PairsOf(n) == n * (n - 1)
  {
    if n > 0 {
      PairsOfGrows(if m < n then m else n - 1, n - 1);
      assert n * (n - 1) == (n - 1) * (n - 2) + 2 * (n - 1);
    }
  }

  /** The key of some two ids of a row. */
  ghost predicate IsPairIn(ids: set<nat>, v: nat, key: nat)
    requires v > 0
  {
    First(key, v) in ids && Second(key, v) in ids && First(key, v) < Second(key, v)
  }

  /** The pairs added by the first `i` rounds of a row. */
  ghost predicate Added(row: seq<nat>, v: nat, i: nat, key: nat)
    requires v > 0 && i <= |row|
  {
    IsPairIn(Elements(row), v, key) && First(key, v) in Elements(row[..i])
  }

  /** The pairs added by round `i` up to partner `j`. */
  ghost predicate AddedNow(row: seq<nat>, v: nat, i: nat, j: nat, key: nat)
    requires v > 0 && i < j <= |row|
  {
    First(key, v) == row[i] && Second(key, v) in Elements(row[i + 1..j])
  }

  /** Add every pair of one document's row. */
  method CountRow(pairs: Counter, row: seq<nat>, v: nat)
    requires pairs.Valid() && v > 0
    requires Ascending(Less, row) && forall i :: 0 <= i < |row| ==> row[i] < v
    modifies pairs`counts, pairs`peak
    ensures pairs.Valid() && old(|pairs.counts|) <= |pairs.counts| &&
            pairs.peak == Larger(old(pairs.peak), |pairs.counts|)
    ensures forall key :: InMemory(pairs.counts, key)
                          == old(InMemory(pairs.counts, key)) + (if IsPairIn(Elements(row), v, key) then 1 else 0)
    ensures |pairs.counts| <= old(|pairs.counts|) + PairsOf(|row|)
  {
    ghost var start, peak := pairs.counts, pairs.peak;
    for i := 0 to |row|
      invariant pairs.Valid() && |start| <= |pairs.counts| && pairs.peak == Larger(peak, |pairs.counts|)
      invariant forall key ::
                  InMemory(pairs.counts, key) ==
                  InMemory(start, key) + (if Added(row, v, i, key) then 1 else 0)
      invariant |pairs.counts| <= |start| + PairsOf(|row|) - PairsOf(|row| - i)
    {
      ghost var before := pairs.counts;
      for j := i + 1 to |row|
        invariant pairs.Valid() && |before| <= |pairs.counts| && pairs.peak == Larger(peak, |pairs.counts|)
        invariant forall key ::
                    InMemory(pairs.counts, key) ==
                    InMemory(before, key) + (if AddedNow(row, v, i, j, key) then 1 else 0)
        invariant |pairs.counts| <= |before| + j - i - 1
      {
        RowStep(row, v, i, j);
        pairs.Add(Key(row[i], row[j], v));
      }
      RowDone(row, v, i);
    }
    assert row[..|row|] == row;
  }

  /** The pair added at step (i, j) is new, and is the only one added there. */
  lemma RowStep(row: seq<nat>, v: nat, i: nat, j: nat)
    requires Ascending(Less, row) && i < j < |row| && v > 0 && forall x :: 0 <= x < |row| ==> row[x] < v
    ensures forall key :: AddedNow(row, v, i, j + 1, key) <==>
              AddedNow(row, v, i, j, key) || key == Key(row[i], row[j], v)
    ensures !AddedNow(row, v, i, j, Key(row[i], row[j], v))
  {
    assert row[i + 1..j + 1] == row[i + 1..j] + [row[j]];
    assert Elements(row[i + 1..j + 1]) == Elements(row[i + 1..j]) + {row[j]};
    forall x | i < x < j ensures row[x] != row[j] {
      assert Less(row[x], row[j]);
    }
    assert row[j] !in Elements(row[i + 1..j]);
    KeyDecodes(row[i], row[j], v);
    forall key ensures AddedNow(row, v, i, j + 1, key) <==>
        AddedNow(row, v, i, j, key) || key == Key(row[i], row[j], v) {
      KeyIsPair(row[i], row[j], v, key);
    }
  }

  /** A finished round has added exactly the pairs led by its id. */
  lemma RowDone(row: seq<nat>, v: nat, i: nat)
    requires Ascending(Less, row) && i < |row| && v > 0
    ensures forall key :: Added(row, v, i + 1, key) <==> Added(row, v, i, key) || AddedNow(row, v, i, |row|, key)
    ensures forall key :: !(Added(row, v, i, key) && AddedNow(row, v, i, |row|, key))
  {
  }

  // ---- Counting the documents -------------------------------------------------------------------

  /** `counted` lists the kept vocabulary alphabetically and `ids` is its inverse. */
  ghost predicate Numbered(counted: seq<Token>, ids: map<Token, nat>) {
    && Ascending(Before, counted)
    && (forall t :: t in ids <==> t in counted)
    && (forall t :: t in ids ==> ids[t] < |counted| && counted[ids[t]] == t)
    && (forall i :: 0 <= i < |counted| ==> counted[i] in ids && ids[counted[i]] == i)
  }

  method Number(terms: set<Token>) returns (counted: seq<Token>, ids: map<Token, nat>)
    ensures Numbered(counted, ids) && Elements(counted) == terms
  {
    OrdersAreTotal();
    var list := ListOf(terms);
    SortAscends(Before, list);
    counted := Sort(Before, list);
    AscendingNoRepeats(Before, counted);
    ids := map[];
    for i := 0 to |counted|
      invariant forall t :: t in ids ==> ids[t] < i && counted[ids[t]] == t
      invariant forall j :: 0 <= j < i ==> counted[j] in ids && ids[counted[j]] == j
    {
      assert forall j :: 0 <= j < i ==> counted[j] != counted[i];
      ids := ids[counted[i] := i];
    }
  }

  /** The ids of one document's counted tokens. */
  ghost function IdsOf(counted: seq<Token>, doc: set<Token>): set<nat> {
    set i: nat | i < |counted| && counted[i] in doc
  }

  /** The next token adds its id, if it is counted, and no id twice. */
  lemma IdsStep(ordered: seq<Token>, i: nat, counted: seq<Token>, ids: map<Token, nat>)
    requires Numbered(counted, ids) && NoRepeats(ordered) && i < |ordered|
    ensures var before, t := IdsOf(counted, Elements(ordered[..i])), ordered[i];
            && IdsOf(counted, Elements(ordered[..i + 1])) == before + (if t in ids then {ids[t]} else {})
            && (t in ids ==> ids[t] !in before)
  {
    assert Elements(ordered[..i + 1]) == Elements(ordered[..i]) + {ordered[i]} by {
      assert ordered[..i + 1] == ordered[..i] + [ordered[i]];
    }
    assert ordered[i] !in ordered[..i];
  }

  method RowOf(ordered: seq<Token>, counted: seq<Token>, ids: map<Token, nat>) returns (row: seq<nat>)
    requires Numbered(counted, ids) && Ascending(Before, ordered)
    ensures Ascending(Less, row) && Elements(row) == IdsOf(counted, Elements(ordered)) && |row| <= |ordered|
  {
    OrdersAreTotal();
    AscendingNoRepeats(Before, ordered);
    var found: seq<nat> := [];
    for i := 0 to |ordered|
      invariant |found| <= i && NoRepeats(found)
      invariant Elements(found) == IdsOf(counted, Elements(ordered[..i]))
    {
      var t := ordered[i];
      IdsStep(ordered, i, counted, ids);
      if t in ids {
        ghost var before := found;
        found := found + [ids[t]];
        assert Elements(found) == Elements(before) + {ids[t]};
      }
    }
    assert ordered[..|ordered|] == ordered;
    assert StrictTotal(Less);
    SortAscends(Less, found);
    row := Sort(Less, found);
  }

  /** The count a key must have once the documents are counted. */
  ghost function PairCount(docs: seq<set<Token>>, counted: seq<Token>, key: nat): nat
    requires |counted| > 0
  {
    var a, b := First(key, |counted|), Second(key, |counted|);
    if a < b then Together(docs, counted[a], counted[b]) else 0
  }

  lemma PairCountStep(docs: seq<set<Token>>, counted: seq<Token>, i: nat, key: nat)
    requires i < |docs| && |counted| > 0
    ensures PairCount(docs[..i + 1], counted, key) ==
            PairCount(docs[..i], counted, key) + (if IsPairIn(IdsOf(counted, docs[i]), |counted|, key) then 1 else 0)
  {
    assert docs[..i + 1][..i] == docs[..i];
  }

  /**
  Count all documents. Resident pairs stay below the ceiling plus what one capped document can add,
  whatever the corpus size, and every flush so far holds at least the ceiling.
  */
  method CountDocuments(lists: seq<seq<Token>>, counted: seq<Token>, ids: map<Token, nat>, cap: nat,
                        ghost docs: seq<set<Token>>, maxPairs: int) returns (pairs: Counter)
    requires Numbered(counted, ids) && |counted| > 0 && |docs| == |lists|
    requires forall i :: 0 <= i < |lists| ==>
               Ascending(Before, lists[i]) && Elements(lists[i]) == docs[i] && (cap > 0 ==> |lists[i]| <= cap)
    ensures fresh(pairs) && pairs.Valid() && pairs.maxEntries == maxPairs
    ensures forall key :: pairs.Total(key) == PairCount(docs, counted, key)
    ensures maxPairs > 0 && cap > 0 ==> pairs.maxResident <= maxPairs - 1 + PairsOf(cap)
    ensures pairs.peak == pairs.maxResident
    ensures forall i :: 0 <= i < |pairs.flushes| ==> pairs.flushes[i] >= maxPairs
  {
    pairs := new Counter(maxPairs);
    var v := |counted|;
    for i := 0 to |lists|
      invariant fresh(pairs) && pairs.Valid() && pairs.maxEntries == maxPairs
      invariant forall key :: pairs.Total(key) == PairCount(docs[..i], counted, key)
      invariant maxPairs > 0 ==> |pairs.counts| < maxPairs
      invariant maxPairs > 0 && cap > 0 ==> pairs.maxResident <= maxPairs - 1 + PairsOf(cap)
      invariant pairs.peak == pairs.maxResident
      invariant forall j :: 0 <= j < |pairs.flushes| ==> pairs.flushes[j] >= maxPairs
    {
      var row := RowOf(lists[i], counted, ids);
      assert forall x :: 0 <= x < |row| ==> row[x] in Elements(row);
      CountRow(pairs, row, v);
      if cap > 0 {
        PairsOfGrows(|row|, cap);
      }
      pairs.Checkpoint();
      forall key ensures PairCount(docs[..i + 1], counted, key) ==
                         PairCount(docs[..i], counted, key) + (if IsPairIn(Elements(row), v, key) then 1 else 0) {
        PairCountStep(docs, counted, i, key);
      }
    }
    assert docs[..|docs|] == docs;
  }
}
