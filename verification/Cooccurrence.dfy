/**
The co-occurrence table (src/data_olympus/cooccurrence.py), as a plain definition over the documents.
The association score is any real-valued function of `c_ab * N` and `c_a * c_b`.
*/
module Cooccurrence {
  import opened Ranking
  import opened Lexical

  type Token = string

  // ---- The three orders -----------------------------------------------------------------

  /** The order in which a long document's tokens are kept: longest first, then alphabetical. */
  predicate KeptFirst(a: Token, b: Token) {
    |a| > |b| || (|a| == |b| && Before(a, b))
  }

  datatype Entry = Entry(pmi: real, count: nat, other: Token)

  /** Stronger partners first: by score, then count, then name. */
  predicate Stronger(a: Entry, b: Entry) {
    || a.pmi > b.pmi
    || (a.pmi == b.pmi && a.count > b.count)
    || (a.pmi == b.pmi && a.count == b.count && Before(a.other, b.other))
  }

  lemma OrdersAreTotal()
    ensures StrictTotal(Before) && StrictTotal(KeptFirst) && StrictTotal(Stronger)
  {
    BeforeIsTotal();
  }

  // ---- The plain definition ---------------------------------------------------------------

  datatype Params = Params(k: int, minCount: int, minPmi: real, minDocs: int, maxDocTokens: int, maxPairs: int,
                           pmi: (nat, nat) -> real)

  /** The tokens a document contributes: all, or the first `cap` in `KeptFirst` order. */
  ghost function Capped(tokens: set<Token>, cap: int): set<Token> {
    if cap > 0 && |tokens| > cap then TopSet(KeptFirst, tokens, cap) else tokens
  }

  function NonEmpty(docs: seq<set<Token>>): seq<set<Token>>
    decreases |docs|
  {
    if docs == [] then []
    else NonEmpty(docs[..|docs| - 1]) + (if docs[|docs| - 1] == {} then [] else [docs[|docs| - 1]])
  }

  ghost function CappedDocs(docs: seq<set<Token>>, cap: int): (capped: seq<set<Token>>)
    ensures |capped| == |NonEmpty(docs)|
    ensures forall i :: 0 <= i < |capped| ==> capped[i] == Capped(NonEmpty(docs)[i], cap)
  {
    seq(|NonEmpty(docs)|, i requires 0 <= i < |NonEmpty(docs)| => Capped(NonEmpty(docs)[i], cap))
  }

  /** In how many documents a token occurs. */
  ghost function Occurrences(docs: seq<set<Token>>, t: Token): nat
    decreases |docs|
  {
    if docs == [] then 0
    else Occurrences(docs[..|docs| - 1], t) + (if t in docs[|docs| - 1] then 1 else 0)
  }

  /** In how many documents two tokens occur together. */
  ghost function Together(docs: seq<set<Token>>, a: Token, b: Token): nat
    decreases |docs|
  {
    if docs == [] then 0
    else Together(docs[..|docs| - 1], a, b) + (if a in docs[|docs| - 1] && b in docs[|docs| - 1] then 1 else 0)
  }

  ghost function Vocabulary(docs: seq<set<Token>>): set<Token> {
    set i, t | 0 <= i < |docs| && t in docs[i] :: t
  }

  function Product(x: nat, y: nat): nat {
    x * y
  }

  ghost function Score(docs: seq<set<Token>>, p: Params, a: Token, b: Token): real {
    p.pmi(Product(Together(docs, a, b), |docs|), Product(Occurrences(docs, a), Occurrences(docs, b)))
  }

  /** The score compares how often two tokens occur together in all the documents with how often each occurs. */
  lemma ScoreMeans(docs: seq<set<Token>>, p: Params, a: Token, b: Token)
    ensures Score(docs, p, a, b) == p.pmi(Together(docs, a, b) * |docs|, Occurrences(docs, a) * Occurrences(docs, b))
  {
  }

  lemma ScoreSymmetric(docs: seq<set<Token>>, p: Params, a: Token, b: Token)
    ensures Together(docs, a, b) == Together(docs, b, a) && Score(docs, p, a, b) == Score(docs, p, b, a)
  {
  }

  /** The pair occurs together, often enough and with a high enough score. */
  ghost predicate Related(docs: seq<set<Token>>, p: Params, a: Token, b: Token) {
    a != b && Together(docs, a, b) > 0 && Together(docs, a, b) >= p.minCount && Score(docs, p, a, b) >= p.minPmi
  }

  ghost function EntryOf(docs: seq<set<Token>>, p: Params, a: Token, b: Token): Entry {
    Entry(Score(docs, p, a, b), Together(docs, a, b), b)
  }

  /** The entries of all partners of a term. */
  ghost function Partners(docs: seq<set<Token>>, p: Params, a: Token): set<Entry> {
    set b | b in Vocabulary(docs) && Related(docs, p, a, b) :: EntryOf(docs, p, a, b)
  }

  function Names(entries: seq<Entry>): (names: seq<Token>)
    ensures |names| == |entries| && forall i :: 0 <= i < |names| ==> names[i] == entries[i].other
  {
    seq(|entries|, i requires 0 <= i < |entries| => entries[i].other)
  }

  /** A term's row: the names of its `k` strongest partners, strongest first. */
  ghost predicate IsRow(partners: set<Entry>, k: int, row: seq<Token>) {
    exists top :: IsTop(Stronger, partners, k, top) && row == Names(top)
  }

  /** The table, for a corpus large enough: one row for each term that has a partner. */
  ghost predicate IsTable(docs: seq<set<Token>>, p: Params, table: map<Token, seq<Token>>) {
    && (forall a :: a in table <==> Partners(docs, p, a) != {})
    && (forall a :: a in table ==> IsRow(Partners(docs, p, a), p.k, table[a]))
  }

  ghost predicate Enabled(docs: seq<set<Token>>, p: Params) {
    |NonEmpty(docs)| >= 2 && |NonEmpty(docs)| >= p.minDocs && p.k > 0
  }

  ghost predicate IsPlainTable(docs: seq<set<Token>>, p: Params, table: map<Token, seq<Token>>) {
    if Enabled(docs, p) then IsTable(CappedDocs(docs, p.maxDocTokens), p, table) else table == map[]
  }

  /**
  The plain definition determines the table, and the memory ceiling plays no part in it: any two tables
  meeting it for the same documents and otherwise equal parameters are the same.
  */
  lemma PlainTableUnique(docs: seq<set<Token>>, p: Params, q: Params, s: map<Token, seq<Token>>,
                         t: map<Token, seq<Token>>)
    requires q == p.(maxPairs := q.maxPairs)
    requires IsPlainTable(docs, p, s) && IsPlainTable(docs, q, t)
    ensures s == t
  {
    if Enabled(docs, p) {
      OrdersAreTotal();
      var capped := CappedDocs(docs, p.maxDocTokens);
      forall a ensures Partners(capped, p, a) == Partners(capped, q, a) {
        assert forall b :: Score(capped, p, a, b) == Score(capped, q, a, b);
        assert forall b :: Related(capped, p, a, b) == Related(capped, q, a, b);
      }
      assert s.Keys == t.Keys;
      forall a | a in s ensures s[a] == t[a] {
        var partners := Partners(capped, p, a);
        var x :| IsTop(Stronger, partners, p.k, x) && s[a] == Names(x);
        var y :| IsTop(Stronger, partners, p.k, y) && t[a] == Names(y);
        AscendingUnique(Stronger, x, y);
      }
    }
  }

  // ---- What a row says ------------------------------------------------------------------------

  /** Higher score first, then more documents together, then the alphabet. */
  ghost predicate Outranks(docs: seq<set<Token>>, p: Params, a: Token, b: Token, c: Token) {
    var (sb, sc) := (Score(docs, p, a, b), Score(docs, p, a, c));
    var (tb, tc) := (Together(docs, a, b), Together(docs, a, c));
    if sb != sc then sb > sc else if tb != tc then tb > tc else Before(b, c)
  }

  lemma PartnersAre(docs: seq<set<Token>>, p: Params, a: Token, entry: Entry)
    ensures entry in Partners(docs, p, a) <==>
              entry.other in Vocabulary(docs) && Related(docs, p, a, entry.other)
              && entry == EntryOf(docs, p, a, entry.other)
  {
  }

  lemma StrongerOutranks(docs: seq<set<Token>>, p: Params, a: Token, b: Token, c: Token)
    ensures Stronger(EntryOf(docs, p, a, b), EntryOf(docs, p, a, c)) <==> Outranks(docs, p, a, b, c)
  {
  }

  /** A row holds related terms, `k` of them or all there are, each outranking those after it and those left out. */
  lemma RowMeans(docs: seq<set<Token>>, p: Params, a: Token, row: seq<Token>)
    requires p.k >= 0 && IsRow(Partners(docs, p, a), p.k, row)
    ensures |row| <= p.k
    ensures forall b :: b in row ==> b in Vocabulary(docs) && Related(docs, p, a, b)
    ensures forall i, j :: 0 <= i < j < |row| ==> Outranks(docs, p, a, row[i], row[j])
    ensures forall c :: c in Vocabulary(docs) && Related(docs, p, a, c) && c !in row ==>
              |row| == p.k && forall b :: b in row ==> Outranks(docs, p, a, b, c)
  {
    var partners := Partners(docs, p, a);
    var top :| IsTop(Stronger, partners, p.k, top) && row == Names(top);
    TopIs(partners, p.k, top);
    forall i | 0 <= i < |row| ensures row[i] in Vocabulary(docs) && Related(docs, p, a, row[i])
      ensures top[i] == EntryOf(docs, p, a, row[i])
    {
      PartnersAre(docs, p, a, top[i]);
    }
    forall i, j | 0 <= i < j < |row| ensures Outranks(docs, p, a, row[i], row[j]) {
      StrongerOutranks(docs, p, a, row[i], row[j]);
    }
    forall c | c in Vocabulary(docs) && Related(docs, p, a, c) && c !in row
      ensures |row| == p.k && forall b :: b in row ==> Outranks(docs, p, a, b, c)
    {
      PartnersAre(docs, p, a, EntryOf(docs, p, a, c));
      forall i | 0 <= i < |row| ensures Outranks(docs, p, a, row[i], c) {
        StrongerOutranks(docs, p, a, row[i], c);
      }
    }
  }

  lemma TopIs(partners: set<Entry>, k: nat, top: seq<Entry>)
    requires IsTop(Stronger, partners, k, top)
    ensures |top| <= k
    ensures forall i, j :: 0 <= i < j < |top| ==> Stronger(top[i], top[j])
    ensures forall i :: 0 <= i < |top| ==> top[i] in partners
    ensures forall out :: out in partners && out.other !in Names(top) ==>
              |top| == k && forall i :: 0 <= i < |top| ==> Stronger(top[i], out)
  {
    OrdersAreTotal();
    TopHas(Stronger, partners, k, top);
    forall i | 0 <= i < |top| ensures top[i] in TopSet(Stronger, partners, k) {
      assert top[i] in Elements(top);
    }
    forall out | out in partners && out.other !in Names(top)
      ensures |top| == k && forall i :: 0 <= i < |top| ==> Stronger(top[i], out)
    {
      assert out !in Elements(top) by {
        assert forall i :: 0 <= i < |top| ==> Names(top)[i] == top[i].other;
      }
      forall i | 0 <= i < |top| ensures Stronger(top[i], out) {
        TopPrecedes(Stronger, partners, k, top[i], out);
      }
    }
  }

  /** `cap` of the tokens, none shorter than one left out, and among equally long ones the first in the alphabet. */
  ghost predicate KeepsLongest(tokens: set<Token>, cap: int, kept: set<Token>) {
    && |kept| == cap && kept <= tokens
    && forall a, b :: a in kept && b in tokens - kept ==> |b| <= |a| && (|b| == |a| ==> Before(a, b))
  }

  lemma CappedMeans(tokens: set<Token>, cap: int, kept: seq<Token>)
    requires cap > 0 && |tokens| > cap && IsTop(KeptFirst, tokens, cap, kept)
    ensures KeepsLongest(tokens, cap, Elements(kept))
  {
    OrdersAreTotal();
    TopHas(KeptFirst, tokens, cap, kept);
    AscendingCard(KeptFirst, kept);
    forall a, b | a in Elements(kept) && b in tokens - Elements(kept) ensures KeptFirst(a, b) {
      TopPrecedes(KeptFirst, tokens, cap, a, b);
    }
  }

  // ---- Facts about the counts -----------------------------------------------------------------

  lemma {:induction false} TogetherBounded(docs: seq<set<Token>>, a: Token, b: Token)
    ensures Together(docs, a, b) <= Occurrences(docs, a) && Together(docs, a, b) <= Occurrences(docs, b)
    ensures Together(docs, a, b) == Together(docs, b, a)
    decreases |docs|
  {
    if docs != [] {
      TogetherBounded(docs[..|docs| - 1], a, b);
    }
  }

  lemma {:induction false} OccurringIsVocabulary(docs: seq<set<Token>>, t: Token)
    ensures Occurrences(docs, t) > 0 <==> t in Vocabulary(docs)
    decreases |docs|
  {
    if docs != [] {
      var init := docs[..|docs| - 1];
      OccurringIsVocabulary(init, t);
      if t in Vocabulary(init) {
        var i :| 0 <= i < |init| && t in init[i];
        assert t in docs[i];
      }
      if t in Vocabulary(docs) {
        var i :| 0 <= i < |docs| && t in docs[i];
        assert i < |init| ==> t in init[i];
      }
    }
  }

  /** The lossless prefilter: both terms of a related pair occur in at least `minCount` documents. */
  lemma RelatedTermsAreCounted(docs: seq<set<Token>>, p: Params, a: Token, b: Token)
    requires Related(docs, p, a, b)
    ensures a in Vocabulary(docs) && b in Vocabulary(docs)
    ensures Occurrences(docs, a) >= p.minCount && Occurrences(docs, b) >= p.minCount
  {
    TogetherBounded(docs, a, b);
    OccurringIsVocabulary(docs, a);
    OccurringIsVocabulary(docs, b);
  }
}
