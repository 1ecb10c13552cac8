/** Precedence of Semantic Versioning 2.0.0, section 11. */
module SemVer {
  import opened Ranking
  import opened Lexical

  datatype Triple = Triple(major: nat, minor: nat, patch: nat)

  predicate Below(a: Triple, b: Triple) {
    || a.major < b.major
    || (a.major == b.major && a.minor < b.minor)
    || (a.major == b.major && a.minor == b.minor && a.patch < b.patch)
  }

  datatype Identifier = Numeric(n: nat) | Alphanumeric(text: string)

  /** A version without build metadata; the empty list marks a release. */
  datatype Version = Version(core: Triple, prerelease: seq<Identifier>)

  /** Section 11.4.1 to 11.4.3: numbers numerically, words by character, numbers below words. */
  predicate IdentifierBelow(a: Identifier, b: Identifier) {
    match (a, b)
    case (Numeric(x), Numeric(y)) => x < y
    case (Numeric(_), Alphanumeric(_)) => true
    case (Alphanumeric(_), Numeric(_)) => false
    case (Alphanumeric(x), Alphanumeric(y)) => Before(x, y)
  }

  /** Section 11.4: field by field, and a longer list over its own beginning. */
  predicate PrereleaseBelow(a: seq<Identifier>, b: seq<Identifier>) {
    if b == [] then false
    else if a == [] then true
    else IdentifierBelow(a[0], b[0]) || (a[0] == b[0] && PrereleaseBelow(a[1..], b[1..]))
  }

  /** Section 11.2 and 11.3: the core decides, and a prerelease precedes its release. */
  predicate Precedes(a: Version, b: Version) {
    || Below(a.core, b.core)
    || (a.core == b.core && a.prerelease != [] && (b.prerelease == [] || PrereleaseBelow(a.prerelease, b.prerelease)))
  }

  function Release(core: Triple): Version {
    Version(core, [])
  }

  /** `-rc.N`, or `-hotfix.rc.N`. */
  function Candidate(core: Triple, hotfix: bool, n: nat): Version {
    Version(core, (if hotfix then [Alphanumeric("hotfix")] else []) + [Alphanumeric("rc"), Numeric(n)])
  }

  /** Candidates of one kind are ordered by target, then by number. */
  lemma CandidatesOrder(a: Triple, n: nat, b: Triple, m: nat, hotfix: bool)
    ensures Precedes(Candidate(a, hotfix, n), Candidate(b, hotfix, m)) <==> Below(a, b) || (a == b && n < m)
  {
    NumbersOrder(n, m);
    SameHead("rc", [Numeric(n)], [Numeric(m)]);
    SameHead("hotfix", [Alphanumeric("rc"), Numeric(n)], [Alphanumeric("rc"), Numeric(m)]);
    var x, y := [Alphanumeric("rc"), Numeric(n)], [Alphanumeric("rc"), Numeric(m)];
    assert x == [Alphanumeric("rc")] + [Numeric(n)] && y == [Alphanumeric("rc")] + [Numeric(m)];
    assert [] + x == x && [] + y == y;
  }

  lemma SameHead(word: string, x: seq<Identifier>, y: seq<Identifier>)
    ensures PrereleaseBelow([Alphanumeric(word)] + x, [Alphanumeric(word)] + y) <==> PrereleaseBelow(x, y)
  {
    BeforeTotal(word, word);
    var a, b := [Alphanumeric(word)] + x, [Alphanumeric(word)] + y;
    assert a[1..] == x && b[1..] == y;
    assert a[0] == b[0] == Alphanumeric(word);
  }

  lemma NumbersOrder(n: nat, m: nat)
    ensures PrereleaseBelow([Numeric(n)], [Numeric(m)]) <==> n < m
  {
  }

  // ---- Precedence is an order, and the documented one ---------------------------------------------------

  lemma IdentifiersAreTotal()
    ensures StrictTotal(IdentifierBelow)
  {
    forall x, y ensures !IdentifierBelow(x, x) && (x != y ==> IdentifierBelow(x, y) || IdentifierBelow(y, x)) {
      if x.Alphanumeric? && y.Alphanumeric? {
        BeforeTotal(x.text, y.text);
      }
      if x.Alphanumeric? {
        BeforeTotal(x.text, x.text);
      }
    }
    forall x, y, z | IdentifierBelow(x, y) && IdentifierBelow(y, z) ensures IdentifierBelow(x, z) {
      if x.Alphanumeric? {
        BeforeTransitive(x.text, y.text, z.text);
      }
    }
  }

  lemma {:induction false} PrereleasesDiffer(a: seq<Identifier>, b: seq<Identifier>)
    ensures !PrereleaseBelow(a, a)
    ensures a != b ==> PrereleaseBelow(a, b) || PrereleaseBelow(b, a)
  {
    IdentifiersAreTotal();
    if a != [] {
      PrereleasesDiffer(a[1..], if b == [] then [] else b[1..]);
      if b != [] && a[0] == b[0] {
        assert a == [a[0]] + a[1..] && b == [b[0]] + b[1..];
      }
    }
  }

  lemma {:induction false} PrereleasesTransitive(a: seq<Identifier>, b: seq<Identifier>, c: seq<Identifier>)
    requires PrereleaseBelow(a, b) && PrereleaseBelow(b, c)
    ensures PrereleaseBelow(a, c)
  {
    IdentifiersAreTotal();
    if a != [] && a[0] == b[0] && b[0] == c[0] {
      PrereleasesTransitive(a[1..], b[1..], c[1..]);
    }
  }

  /** Any two versions are ordered, one way only, and transitively. */
  lemma PrecedesIsTotal()
    ensures StrictTotal(Precedes)
  {
    forall a, b ensures !Precedes(a, a) && (a != b ==> Precedes(a, b) || Precedes(b, a)) {
      PrereleasesDiffer(a.prerelease, b.prerelease);
    }
    forall a, b, c | Precedes(a, b) && Precedes(b, c) ensures Precedes(a, c) {
      PrecedesTransitive(a, b, c);
    }
  }

  lemma PrecedesTransitive(a: Version, b: Version, c: Version)
    requires Precedes(a, b) && Precedes(b, c)
    ensures Precedes(a, c)
  {
    if a.core == b.core == c.core && c.prerelease != [] {
      PrereleasesTransitive(a.prerelease, b.prerelease, c.prerelease);
    }
  }

  /** The example of section 11.4. */
  lemma PrecedenceExample()
    ensures var core := Triple(1, 0, 0);
            && Precedes(Version(core, [Alphanumeric("alpha")]), Version(core, [Alphanumeric("alpha"), Numeric(1)]))
            && Precedes(Version(core, [Alphanumeric("alpha"), Numeric(1)]),
                        Version(core, [Alphanumeric("alpha"), Alphanumeric("beta")]))
            && Precedes(Version(core, [Alphanumeric("alpha"), Alphanumeric("beta")]),
                        Version(core, [Alphanumeric("beta")]))
            && Precedes(Version(core, [Alphanumeric("beta")]), Version(core, [Alphanumeric("beta"), Numeric(2)]))
            && Precedes(Version(core, [Alphanumeric("beta"), Numeric(2)]),
                        Version(core, [Alphanumeric("beta"), Numeric(11)]))
            && Precedes(Version(core, [Alphanumeric("beta"), Numeric(11)]),
                        Version(core, [Alphanumeric("rc"), Numeric(1)]))
            && Precedes(Version(core, [Alphanumeric("rc"), Numeric(1)]), Version(core, []))
  {
    SameHead("alpha", [], [Numeric(1)]);
    SameHead("alpha", [Numeric(1)], [Alphanumeric("beta")]);
    SameHead("beta", [], [Numeric(2)]);
    SameHead("beta", [Numeric(2)], [Numeric(11)]);
    assert [Alphanumeric("alpha")] + [] == [Alphanumeric("alpha")] &&
           [Alphanumeric("beta")] + [] == [Alphanumeric("beta")];
    assert [Alphanumeric("alpha")] + [Numeric(1)] == [Alphanumeric("alpha"), Numeric(1)];
    assert [Alphanumeric("alpha")] + [Alphanumeric("beta")] == [Alphanumeric("alpha"), Alphanumeric("beta")];
    assert [Alphanumeric("beta")] + [Numeric(2)] == [Alphanumeric("beta"), Numeric(2)];
    assert [Alphanumeric("beta")] + [Numeric(11)] == [Alphanumeric("beta"), Numeric(11)];
  }
}
