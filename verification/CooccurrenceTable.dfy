/** From pair counts to the table (src/data_olympus/cooccurrence.py): scoring, pruning, ranking. */
module CooccurrenceTable {
  import opened Ranking
  import opened Lexical
  import opened Cooccurrence
  import opened PairCounter
  import opened CooccurrenceBuild

  const PRUNE_FACTOR := 4

  // ---- One candidate list -------------------------------------------------------------------

  /** A pruned list that still holds the top `k` of everything offered. */
  ghost predicate HoldsTop(list: seq<Entry>, offered: set<Entry>, k: int) {
    NoRepeats(list) && TopSet(Stronger, offered, k) <= Elements(list) <= offered
  }

  function ListAt(candidates: map<Token, seq<Entry>>, t: Token): seq<Entry> {
    if t in candidates then candidates[t] else []
  }

  /** `offer`: append, and prune to the best `k` once the list has grown past the threshold. */
  method Offer(candidates: map<Token, seq<Entry>>, term: Token, entry: Entry, k: nat, ghost offered: set<Entry>)
    returns (next: map<Token, seq<Entry>>)
    requires k > 0 && HoldsTop(ListAt(candidates, term), offered, k) && entry !in offered
    ensures term in next && next == candidates[term := next[term]]
    ensures HoldsTop(next[term], offered + {entry}, k)
    ensures |ListAt(candidates, term)| <= 4 * k ==> |next[term]| <= 4 * k
    ensures |ListAt(candidates, term)| < 4 * k ==> next[term] == ListAt(candidates, term) + [entry]
  {
    OrdersAreTotal();
    var partners := ListAt(candidates, term) + [entry];
    ghost var list := ListAt(candidates, term);
    assert Elements(partners) == Elements(list) + {entry};
    TopOfLarger(Stronger, offered, offered + {entry}, k);
    assert HoldsTop(partners, offered + {entry}, k);
    var pruneAt := if PRUNE_FACTOR * k > 2 * k then PRUNE_FACTOR * k else 2 * k;
    if |partners| > pruneAt {
      SortAscends(Stronger, partners);
      var sorted := Sort(Stronger, partners);
      TakeIsTop(Stronger, sorted, k);
      TopOfKept(Stronger, offered + {entry}, Elements(partners), k);
      AscendingNoRepeats(Stronger, sorted[..k]);
      partners := sorted[..k];
    }
    next := candidates[term := partners];
  }

  /** The final cut: sort once more and keep the first `k` names. */
  method FinalRow(list: seq<Entry>, k: nat, ghost offered: set<Entry>) returns (row: seq<Token>)
    requires k > 0 && HoldsTop(list, offered, k)
    ensures IsRow(offered, k, row)
  {
    OrdersAreTotal();
    SortAscends(Stronger, list);
    var sorted := Sort(Stronger, list);
    TakeIsTop(Stronger, sorted, k);
    TopOfKept(Stronger, offered, Elements(list), k);
    var top := sorted[..if k < |sorted| then k else |sorted|];
    row := Names(top);
    assert IsTop(Stronger, offered, k, top);
  }

  // ---- What the pairs offer --------------------------------------------------------------------

  /** The entry the pair `a`, `b` offers to term `t`, if any. */
  ghost function PairEntry(docs: seq<set<Token>>, p: Params, a: Token, b: Token, t: Token): set<Entry> {
    if Score(docs, p, a, b) < p.minPmi then {}
    else if t == a then {Entry(Score(docs, p, a, b), Together(docs, a, b), b)}
    else if t == b then {Entry(Score(docs, p, a, b), Together(docs, a, b), a)}
    else {}
  }

  /** The entry of a counted key. */
  ghost function EntryFrom(docs: seq<set<Token>>, p: Params, counted: seq<Token>, key: nat, t: Token): set<Entry>
    requires |counted| > 0
  {
    if First(key, |counted|) >= |counted| then {}
    else PairEntry(docs, p, counted[First(key, |counted|)], counted[Second(key, |counted|)], t)
  }

  ghost function OfferedFrom(docs: seq<set<Token>>, p: Params, counted: seq<Token>, items: seq<(nat, nat)>,
                             t: Token): set<Entry>
    requires |counted| > 0
    decreases |items|
  {
    if items == [] then {}
    else OfferedFrom(docs, p, counted, items[..|items| - 1], t) + EntryFrom(docs, p, counted, items[|items| - 1].0, t)
  }

  lemma {:induction false} OfferedMeans(docs: seq<set<Token>>, p: Params, counted: seq<Token>, items: seq<(nat, nat)>,
                                        t: Token, e: Entry)
    requires |counted| > 0
    ensures e in OfferedFrom(docs, p, counted, items, t) <==>
            exists i :: 0 <= i < |items| && e in EntryFrom(docs, p, counted, items[i].0, t)
    decreases |items|
  {
    if items != [] {
      var init := items[..|items| - 1];
      OfferedMeans(docs, p, counted, init, t, e);
      if e in OfferedFrom(docs, p, counted, init, t) {
        var i :| 0 <= i < |init| && e in EntryFrom(docs, p, counted, init[i].0, t);
        assert items[i] == init[i];
      }
      if exists i :: 0 <= i < |items| && e in EntryFrom(docs, p, counted, items[i].0, t) {
        var i :| 0 <= i < |items| && e in EntryFrom(docs, p, counted, items[i].0, t);
        assert i < |init| ==> items[i] == init[i];
      }
    }
  }

  /** What `Items` delivers: each counted pair once, with its whole count. */
  ghost predicate Delivered(docs: seq<set<Token>>, p: Params, counted: seq<Token>, items: seq<(nat, nat)>) {
    && |counted| > 0
    && (forall i :: 0 <= i < |items| ==>
          items[i].1 == PairCount(docs, counted, items[i].0) && items[i].1 > 0 && items[i].1 >= p.minCount)
    && (forall i, j :: 0 <= i < j < |items| ==> items[i].0 != items[j].0)
    && (forall key :: PairCount(docs, counted, key) > 0 && PairCount(docs, counted, key) >= p.minCount ==>
          exists i :: 0 <= i < |items| && items[i].0 == key)
  }

  /** A counted key is the key of two different tokens, and of no others. */
  lemma KeyOfTokens(docs: seq<set<Token>>, counted: seq<Token>, key: nat)
    requires |counted| > 0 && PairCount(docs, counted, key) > 0
    ensures First(key, |counted|) < Second(key, |counted|) < |counted|
  {
  }

  /** An entry is offered to a term by one pair only. */
  lemma OfferedOnce(docs: seq<set<Token>>, p: Params, counted: seq<Token>, x: nat, y: nat, t: Token, e: Entry)
    requires |counted| > 0 && Ascending(Before, counted)
    requires PairCount(docs, counted, x) > 0 && PairCount(docs, counted, y) > 0
    requires e in EntryFrom(docs, p, counted, x, t) && e in EntryFrom(docs, p, counted, y, t)
    ensures x == y
  {
    var v := |counted|;
    OrdersAreTotal();
    AscendingNoRepeats(Before, counted);
    KeyOfTokens(docs, counted, x);
    KeyOfTokens(docs, counted, y);
    var xa, xb, ya, yb := First(x, v), Second(x, v), First(y, v), Second(y, v);
    assert {counted[xa], counted[xb]} == {t, e.other} == {counted[ya], counted[yb]};
    SamePair(counted, xa, xb, ya, yb);
    KeyIsPair(xa, xb, v, x);
    KeyIsPair(ya, yb, v, y);
  }

  lemma SamePair(counted: seq<Token>, xa: nat, xb: nat, ya: nat, yb: nat)
    requires NoRepeats(counted) && xa < xb < |counted| && ya < yb < |counted|
    requires {counted[xa], counted[xb]} == {counted[ya], counted[yb]}
    ensures xa == ya && xb == yb
  {
  }

  /** A delivered pair offers each of its two terms the other one, and nothing else. */
  lemma EntryFromPair(docs: seq<set<Token>>, p: Params, counted: seq<Token>, key: nat, t: Token, e: Entry)
    requires |counted| > 0 && Ascending(Before, counted) && PairCount(docs, counted, key) > 0
    ensures var a, b := counted[First(key, |counted|)], counted[Second(key, |counted|)];
            e in EntryFrom(docs, p, counted, key, t) <==>
            && Score(docs, p, a, b) >= p.minPmi
            && ((t == a && e == EntryOf(docs, p, t, b)) || (t == b && e == EntryOf(docs, p, t, a)))
  {
    var a, b := counted[First(key, |counted|)], counted[Second(key, |counted|)];
    KeyOfTokens(docs, counted, key);
    OrdersAreTotal();
    assert Before(a, b);
    ScoreSymmetric(docs, p, a, b);
  }

  lemma DeliveredIsPartner(docs: seq<set<Token>>, p: Params, counted: seq<Token>, key: nat, t: Token, e: Entry)
    requires |counted| > 0 && Ascending(Before, counted)
    requires forall u :: u in counted ==> u in Vocabulary(docs)
    requires PairCount(docs, counted, key) > 0 && PairCount(docs, counted, key) >= p.minCount
    requires e in EntryFrom(docs, p, counted, key, t)
    ensures e in Partners(docs, p, t)
  {
    var a, b := counted[First(key, |counted|)], counted[Second(key, |counted|)];
    EntryFromPair(docs, p, counted, key, t, e);
    KeyOfTokens(docs, counted, key);
    OrdersAreTotal();
    assert Before(a, b) && a in counted && b in counted;
    ScoreSymmetric(docs, p, a, b);
    var other := if t == a then b else a;
    assert Related(docs, p, t, other);
  }

  lemma PairKey(docs: seq<set<Token>>, counted: seq<Token>, ids: map<Token, nat>, a: Token, b: Token)
    requires Numbered(counted, ids) && a in ids && b in ids && ids[a] < ids[b]
    ensures var key := Key(ids[a], ids[b], |counted|);
            && First(key, |counted|) == ids[a] && Second(key, |counted|) == ids[b]
            && PairCount(docs, counted, key) == Together(docs, a, b)
  {
    KeyDecodes(ids[a], ids[b], |counted|);
  }

  lemma PartnerIsDelivered(docs: seq<set<Token>>, p: Params, counted: seq<Token>, ids: map<Token, nat>,
                           items: seq<(nat, nat)>, t: Token, b: Token)
    requires Numbered(counted, ids) && Delivered(docs, p, counted, items)
    requires forall u :: u in counted <==> u in Vocabulary(docs) && Occurrences(docs, u) >= p.minCount
    requires Related(docs, p, t, b)
    ensures exists i :: 0 <= i < |items| && EntryOf(docs, p, t, b) in EntryFrom(docs, p, counted, items[i].0, t)
  {
    RelatedTermsAreCounted(docs, p, t, b);
    ScoreSymmetric(docs, p, t, b);
    if ids[t] < ids[b] {
      PairIsDelivered(docs, p, counted, ids, items, t, b, t, EntryOf(docs, p, t, b));
    } else {
      PairIsDelivered(docs, p, counted, ids, items, b, t, t, EntryOf(docs, p, t, b));
    }
  }

  /** Two related terms, by ascending id: their key is delivered, and gives each the entry of the other. */
  lemma PairIsDelivered(docs: seq<set<Token>>, p: Params, counted: seq<Token>, ids: map<Token, nat>,
                        items: seq<(nat, nat)>, first: Token, second: Token, t: Token, e: Entry)
    requires Numbered(counted, ids) && Delivered(docs, p, counted, items)
    requires first in ids && second in ids && ids[first] < ids[second] && Related(docs, p, first, second)
    requires (t == first && e == EntryOf(docs, p, t, second)) || (t == second && e == EntryOf(docs, p, t, first))
    ensures exists i :: 0 <= i < |items| && e in EntryFrom(docs, p, counted, items[i].0, t)
  {
    var key := Key(ids[first], ids[second], |counted|);
    PairKey(docs, counted, ids, first, second);
    EntryFromPair(docs, p, counted, key, t, e);
    var i :| 0 <= i < |items| && items[i].0 == key;
  }

  /** Over all delivered pairs, a term is offered exactly its partners. */
  lemma OfferedArePartners(docs: seq<set<Token>>, p: Params, counted: seq<Token>, ids: map<Token, nat>,
                           items: seq<(nat, nat)>, t: Token)
    requires Numbered(counted, ids) && Delivered(docs, p, counted, items)
    requires forall u :: u in counted <==> u in Vocabulary(docs) && Occurrences(docs, u) >= p.minCount
    ensures OfferedFrom(docs, p, counted, items, t) == Partners(docs, p, t)
  {
    forall e | e in OfferedFrom(docs, p, counted, items, t) ensures e in Partners(docs, p, t) {
      OfferedMeans(docs, p, counted, items, t, e);
      var i :| 0 <= i < |items| && e in EntryFrom(docs, p, counted, items[i].0, t);
      DeliveredIsPartner(docs, p, counted, items[i].0, t, e);
    }
    forall e | e in Partners(docs, p, t) ensures e in OfferedFrom(docs, p, counted, items, t) {
      var b :| b in Vocabulary(docs) && Related(docs, p, t, b) && e == EntryOf(docs, p, t, b);
      PartnerIsDelivered(docs, p, counted, ids, items, t, b);
      OfferedMeans(docs, p, counted, items, t, e);
    }
  }

  // ---- The builder ------------------------------------------------------------------------------

  /** Every term's list holds the top of what it was offered. */
  ghost predicate Holding(candidates: map<Token, seq<Entry>>, offered: Token -> set<Entry>, k: int) {
    && (forall t :: HoldsTop(ListAt(candidates, t), offered(t), k))
    && (forall t :: t in candidates <==> offered(t) != {})
  }

  method OfferBoth(candidates: map<Token, seq<Entry>>, a: Token, b: Token, ofA: Entry, ofB: Entry, k: nat,
                   ghost offeredA: set<Entry>, ghost offeredB: set<Entry>) returns (next: map<Token, seq<Entry>>)
    requires k > 0 && a != b && ofA !in offeredA && ofB !in offeredB
    requires HoldsTop(ListAt(candidates, a), offeredA, k) && HoldsTop(ListAt(candidates, b), offeredB, k)
    ensures forall t :: t in next <==> t in candidates || t == a || t == b
    ensures forall t :: t != a && t != b ==> ListAt(next, t) == ListAt(candidates, t)
    ensures HoldsTop(ListAt(next, a), offeredA + {ofA}, k) && HoldsTop(ListAt(next, b), offeredB + {ofB}, k)
  {
    next := Offer(candidates, a, ofA, k, offeredA);
    next := Offer(next, b, ofB, k, offeredB);
  }

  lemma PairOffered(candidates: map<Token, seq<Entry>>, next: map<Token, seq<Entry>>, k: int,
                    before: Token -> set<Entry>, after: Token -> set<Entry>, a: Token, b: Token, ofA: Entry, ofB: Entry)
    requires Holding(candidates, before, k) && a != b
    requires forall t :: t in next <==> t in candidates || t == a || t == b
    requires forall t :: t != a && t != b ==> ListAt(next, t) == ListAt(candidates, t)
    requires HoldsTop(ListAt(next, a), before(a) + {ofA}, k) && HoldsTop(ListAt(next, b), before(b) + {ofB}, k)
    requires after(a) == before(a) + {ofA} && after(b) == before(b) + {ofB}
    requires forall t :: t != a && t != b ==> after(t) == before(t)
    ensures Holding(next, after, k)
  {
  }

  /** Score the delivered pairs and offer each to both its terms. */
  method RankPairs(items: seq<(nat, nat)>, counted: seq<Token>, termCounts: map<Token, nat>, documents: nat, p: Params,
                   ghost docs: seq<set<Token>>) returns (candidates: map<Token, seq<Entry>>)
    requires p.k > 0 && documents == |docs| && Delivered(docs, p, counted, items) && Ascending(Before, counted)
    requires forall t :: t in counted ==> t in termCounts && termCounts[t] == Occurrences(docs, t)
    ensures Holding(candidates, t => OfferedFrom(docs, p, counted, items, t), p.k)
  {
    candidates := map[];
    ghost var offered: Token -> set<Entry> := t => {};
    for i := 0 to |items|
      invariant Holding(candidates, offered, p.k)
      invariant forall t :: offered(t) == OfferedFrom(docs, p, counted, items[..i], t)
    {
      candidates, offered := RankItem(candidates, items, i, counted, termCounts, documents, p, docs, offered);
    }
    assert items[..|items|] == items;
    HoldingSame(candidates, offered, t => OfferedFrom(docs, p, counted, items, t), p.k);
  }

  /** One delivered pair: its terms from the key, its score from their counts. */
  method RankItem(candidates: map<Token, seq<Entry>>, items: seq<(nat, nat)>, i: nat, counted: seq<Token>,
                  termCounts: map<Token, nat>, documents: nat, p: Params, ghost docs: seq<set<Token>>,
                  ghost before: Token -> set<Entry>)
    returns (next: map<Token, seq<Entry>>, ghost after: Token -> set<Entry>)
    requires p.k > 0 && documents == |docs| && Delivered(docs, p, counted, items) && Ascending(Before, counted) &&
             i < |items|
    requires forall t :: t in counted ==> t in termCounts && termCounts[t] == Occurrences(docs, t)
    requires Holding(candidates, before, p.k) && forall t :: before(t) == OfferedFrom(docs, p, counted, items[..i], t)
    ensures Holding(next, after, p.k) && forall t :: after(t) == OfferedFrom(docs, p, counted, items[..i + 1], t)
  {
    var a, b := counted[First(items[i].0, |counted|)], counted[Second(items[i].0, |counted|)];
    OffersOfItem(docs, p, counted, items, i);
    next, after :=
      RankPair(candidates, a, b, items[i].1, Product(termCounts[a], termCounts[b]), documents, p, docs, before);
  }

  lemma HoldingSame(candidates: map<Token, seq<Entry>>, before: Token -> set<Entry>, after: Token -> set<Entry>, k: int)
    requires Holding(candidates, before, k) && forall t :: after(t) == before(t)
    ensures Holding(candidates, after, k)
  {
  }

  /** Score one pair and, when it qualifies, offer it to both its terms. */
  method RankPair(candidates: map<Token, seq<Entry>>, a: Token, b: Token, together: nat, marginals: nat, documents: nat,
                  p: Params, ghost docs: seq<set<Token>>, ghost before: Token -> set<Entry>)
    returns (next: map<Token, seq<Entry>>, ghost after: Token -> set<Entry>)
    requires p.k > 0 && a != b && together == Together(docs, a, b) && documents == |docs|
    requires marginals == Product(Occurrences(docs, a), Occurrences(docs, b))
    requires Holding(candidates, before, p.k)
    requires forall t, e :: e in PairEntry(docs, p, a, b, t) ==> e !in before(t)
    ensures Holding(next, after, p.k)
    ensures forall t :: after(t) == before(t) + PairEntry(docs, p, a, b, t)
  {
    var score := p.pmi(Product(together, documents), marginals);
    next, after := candidates, t => before(t) + PairEntry(docs, p, a, b, t);
    if score >= p.minPmi {
      var ofA, ofB := Entry(score, together, b), Entry(score, together, a);
      assert PairEntry(docs, p, a, b, a) == {ofA} && PairEntry(docs, p, a, b, b) == {ofB};
      next := OfferBoth(candidates, a, b, ofA, ofB, p.k, before(a), before(b));
      PairOffered(candidates, next, p.k, before, after, a, b, ofA, ofB);
    } else {
      HoldingSame(candidates, before, after, p.k);
    }
  }

  /** Item `i` offers its two terms one new entry each, and other terms none. */
  lemma OffersOfItem(docs: seq<set<Token>>, p: Params, counted: seq<Token>, items: seq<(nat, nat)>, i: nat)
    requires Delivered(docs, p, counted, items) && Ascending(Before, counted) && i < |items|
    ensures var a, b := counted[First(items[i].0, |counted|)], counted[Second(items[i].0, |counted|)];
            && a != b && a in counted && b in counted
            && items[i].1 == Together(docs, a, b)
            && (forall t :: OfferedFrom(docs, p, counted, items[..i + 1], t) ==
                            OfferedFrom(docs, p, counted, items[..i], t) + EntryFrom(docs, p, counted, items[i].0, t))
            && (forall t, e :: e in EntryFrom(docs, p, counted, items[i].0, t) ==>
                  e !in OfferedFrom(docs, p, counted, items[..i], t))
  {
    var a, b := counted[First(items[i].0, |counted|)], counted[Second(items[i].0, |counted|)];
    KeyOfTokens(docs, counted, items[i].0);
    OrdersAreTotal();
    assert Before(a, b);
    assert items[..i + 1][..i] == items[..i];
    forall t, e | e in EntryFrom(docs, p, counted, items[i].0, t)
      ensures e !in OfferedFrom(docs, p, counted, items[..i], t)
    {
      OfferedMeans(docs, p, counted, items[..i], t, e);
      forall j | 0 <= j < i ensures e !in EntryFrom(docs, p, counted, items[j].0, t) {
        if e in EntryFrom(docs, p, counted, items[j].0, t) {
          OfferedOnce(docs, p, counted, items[j].0, items[i].0, t, e);
          assert false;
        }
      }
    }
  }

  /** The rows of all terms with candidates. */
  method FinishTable(candidates: map<Token, seq<Entry>>, p: Params, ghost docs: seq<set<Token>>)
    returns (table: map<Token, seq<Token>>)
    requires p.k > 0 && Holding(candidates, t => Partners(docs, p, t), p.k)
    ensures IsTable(docs, p, table)
  {
    table := map[];
    var todo := candidates.Keys;
    while todo != {}
      invariant todo <= candidates.Keys && table.Keys == candidates.Keys - todo
      invariant forall t :: t in table ==> IsRow(Partners(docs, p, t), p.k, table[t])
    {
      var t :| t in todo;
      var row := FinalRow(ListAt(candidates, t), p.k, Partners(docs, p, t));
      table := table[t := row];
      todo := todo - {t};
    }
  }

  /** The terms occurring in at least `minCount` documents. */
  method CountedTerms(termCounts: map<Token, nat>, minCount: int) returns (terms: set<Token>)
    ensures terms == set t | t in termCounts && termCounts[t] >= minCount
  {
    terms := set t | t in termCounts && termCounts[t] >= minCount;
  }

  method DropEmpty(docs: seq<set<Token>>) returns (materialised: seq<set<Token>>)
    ensures materialised == NonEmpty(docs)
  {
    materialised := [];
    for i := 0 to |docs|
      invariant materialised == NonEmpty(docs[..i])
    {
      assert docs[..i + 1][..i] == docs[..i];
      if docs[i] != {} {
        materialised := materialised + [docs[i]];
      }
    }
    assert docs[..|docs|] == docs;
  }

  /** A single kept term has no partner. */
  lemma NoPartners(docs: seq<set<Token>>, p: Params, counted: seq<Token>)
    requires |counted| < 2
    requires forall u :: u in counted <==> u in Vocabulary(docs) && Occurrences(docs, u) >= p.minCount
    ensures IsTable(docs, p, map[])
  {
    forall a ensures Partners(docs, p, a) == {} {
      forall b ensures !Related(docs, p, a, b) {
        if Related(docs, p, a, b) {
          RelatedTermsAreCounted(docs, p, a, b);
          assert false;
        }
      }
    }
  }

  /** Count all pairs and collect those that reach the minimum count. */
  method CollectPairs(lists: seq<seq<Token>>, counted: seq<Token>, ids: map<Token, nat>, p: Params,
                      ghost docs: seq<set<Token>>)
    returns (items: seq<(nat, nat)>, spills: nat, maxResident: nat, ghost flushes: seq<nat>, ghost peak: nat)
    requires Numbered(counted, ids) && |counted| > 0 && |docs| == |lists|
    requires forall i :: 0 <= i < |lists| ==>
               Ascending(Before, lists[i]) && Elements(lists[i]) == docs[i] &&
                 (p.maxDocTokens > 0 ==> |lists[i]| <= p.maxDocTokens)
    ensures Delivered(docs, p, counted, items)
    ensures maxResident == peak
    ensures p.maxPairs > 0 && p.maxDocTokens > 0 ==> peak <= p.maxPairs - 1 + PairsOf(p.maxDocTokens)
    ensures spills == |flushes| && forall i :: 0 <= i < |flushes| - 1 ==> flushes[i] >= p.maxPairs
  {
    var pairs :=
      CountDocuments(lists, counted, ids, if p.maxDocTokens > 0 then p.maxDocTokens else 0, docs, p.maxPairs);
    items := pairs.Items(p.minCount);
    spills, maxResident, flushes, peak := pairs.spills, pairs.maxResident, pairs.flushes, pairs.peak;
    forall i | 0 <= i < |items| ensures items[i].1 == PairCount(docs, counted, items[i].0) {
      assert items[i].1 == pairs.Total(items[i].0);
    }
    forall key | PairCount(docs, counted, key) > 0 && PairCount(docs, counted, key) >= p.minCount
      ensures exists i :: 0 <= i < |items| && items[i].0 == key
    {
      assert pairs.Total(key) == PairCount(docs, counted, key);
    }
    pairs.Close();
  }

  /** Count, score and rank once the vocabulary is known. */
  method BuildCounted(lists: seq<seq<Token>>, counted: seq<Token>, ids: map<Token, nat>, termCounts: map<Token, nat>,
                      p: Params, ghost docs: seq<set<Token>>)
    returns (table: map<Token, seq<Token>>, spills: nat, maxResident: nat, ghost flushes: seq<nat>, ghost peak: nat)
    requires p.k > 0 && Numbered(counted, ids) && |counted| > 0 && |docs| == |lists|
    requires forall i :: 0 <= i < |lists| ==>
               Ascending(Before, lists[i]) && Elements(lists[i]) == docs[i] &&
                 (p.maxDocTokens > 0 ==> |lists[i]| <= p.maxDocTokens)
    requires forall u :: u in counted <==> u in Vocabulary(docs) && Occurrences(docs, u) >= p.minCount
    requires forall t :: t in counted ==> t in termCounts && termCounts[t] == Occurrences(docs, t)
    ensures IsTable(docs, p, table)
    ensures maxResident == peak
    ensures p.maxPairs > 0 && p.maxDocTokens > 0 ==> peak <= p.maxPairs - 1 + PairsOf(p.maxDocTokens)
    ensures spills == |flushes| && forall i :: 0 <= i < |flushes| - 1 ==> flushes[i] >= p.maxPairs
  {
    var items;
    items, spills, maxResident, flushes, peak := CollectPairs(lists, counted, ids, p, docs);
    table := TableFrom(items, counted, ids, termCounts, |lists|, p, docs);
  }

  /** Score and rank the delivered pairs. */
  method TableFrom(items: seq<(nat, nat)>, counted: seq<Token>, ids: map<Token, nat>, termCounts: map<Token, nat>,
                   documents: nat, p: Params, ghost docs: seq<set<Token>>) returns (table: map<Token, seq<Token>>)
    requires p.k > 0 && documents == |docs| && Numbered(counted, ids) && Delivered(docs, p, counted, items)
    requires forall u :: u in counted <==> u in Vocabulary(docs) && Occurrences(docs, u) >= p.minCount
    requires forall t :: t in counted ==> t in termCounts && termCounts[t] == Occurrences(docs, t)
    ensures IsTable(docs, p, table)
  {
    var candidates := RankPairs(items, counted, termCounts, documents, p, docs);
    forall t ensures OfferedFrom(docs, p, counted, items, t) == Partners(docs, p, t) {
      OfferedArePartners(docs, p, counted, ids, items, t);
    }
    HoldingSame(candidates, t => OfferedFrom(docs, p, counted, items, t), t => Partners(docs, p, t), p.k);
    table := FinishTable(candidates, p, docs);
  }

  /**
  `build_cooccurrence_table_with_stats`: for every corpus and every parameter choice the table is the
  plain one, and with a positive ceiling `M` and document cap `D` at most `M - 1 + D(D-1)/2` pairs are
  ever resident and every flush but the last holds at least `M` of them. The recorded mark is the peak, the
  most pairs the counter held at any moment.
  */
  method Build(docs: seq<set<Token>>, p: Params)
    returns (table: map<Token, seq<Token>>, stats: Stats, ghost flushes: seq<nat>, ghost peak: nat)
    ensures IsPlainTable(docs, p, table)
    ensures stats.maxResident == peak
    ensures p.maxPairs > 0 && p.maxDocTokens > 0 ==>
              2 * peak <= 2 * (p.maxPairs - 1) + p.maxDocTokens * (p.maxDocTokens - 1)
    ensures stats.spills == |flushes| && forall i :: 0 <= i < |flushes| - 1 ==> flushes[i] >= p.maxPairs
    ensures stats.documents == |NonEmpty(docs)|
    ensures Enabled(docs, p) ==> stats.vocabulary == Vocabulary(CappedDocs(docs, p.maxDocTokens))
  {
    var materialised := DropEmpty(docs);
    var documents := |materialised|;
    flushes, peak := [], 0;
    if p.maxDocTokens > 0 {
      PairsOfGrows(p.maxDocTokens, p.maxDocTokens);
    }
    if documents < 2 || documents < p.minDocs || p.k <= 0 {
      return map[], Stats(documents, {}, {}, 0, 0), flushes, peak;
    }
    ghost var capped := CappedDocs(docs, p.maxDocTokens);
    var lists, termCounts := CountTerms(materialised, p.maxDocTokens, capped);
    var terms := CountedTerms(termCounts, p.minCount);
    var counted, ids := Number(terms);
    VocabularyCounted(capped, termCounts, terms, counted, p.minCount);
    if |counted| < 2 {
      NoPartners(capped, p, counted);
      return map[], Stats(documents, termCounts.Keys, terms, 0, 0), flushes, peak;
    }
    var spills, maxResident;
    table, spills, maxResident, flushes, peak := BuildCounted(lists, counted, ids, termCounts, p, capped);
    stats := Stats(documents, termCounts.Keys, terms, spills, maxResident);
  }

  lemma VocabularyCounted(docs: seq<set<Token>>, termCounts: map<Token, nat>, terms: set<Token>, counted: seq<Token>,
                          minCount: int)
    requires forall t :: InMap(termCounts, t) == Occurrences(docs, t)
    requires forall t :: t in termCounts ==> termCounts[t] > 0
    requires terms == (set t | t in termCounts && termCounts[t] >= minCount) && Elements(counted) == terms
    ensures termCounts.Keys == Vocabulary(docs)
    ensures forall u :: u in counted <==> u in Vocabulary(docs) && Occurrences(docs, u) >= minCount
    ensures forall t :: t in counted ==> t in termCounts && termCounts[t] == Occurrences(docs, t)
  {
    forall t ensures t in termCounts <==> t in Vocabulary(docs) {
      OccurringIsVocabulary(docs, t);
      assert InMap(termCounts, t) == Occurrences(docs, t);
    }
    assert forall u :: u in counted <==> u in Elements(counted);
    assert forall t :: t in termCounts ==> InMap(termCounts, t) == termCounts[t];
  }
}
