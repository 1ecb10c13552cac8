/** The order in which Python compares strings. */
module Lexical {
  import opened Ranking

  /** Alphabetical order, by character. */
  predicate Before(a: string, b: string) {
    if b == [] then false
    else if a == [] then true
    else a[0] < b[0] || (a[0] == b[0] && Before(a[1..], b[1..]))
  }

  /** The texts agree up to place `n`, where `a` ends or has the smaller character. */
  ghost predicate DecidedAt(a: string, b: string, n: nat) {
    n <= |a| && n < |b| && a[..n] == b[..n] && (n == |a| || a[n] < b[n])
  }

  /** At the first place where they differ the smaller character comes first; a beginning comes before the whole. */
  lemma {:induction false} BeforeMeans(a: string, b: string)
    ensures Before(a, b) <==> exists n: nat :: DecidedAt(a, b, n)
  {
    if a != [] && b != [] && a[0] == b[0] {
      BeforeMeans(a[1..], b[1..]);
      if n: nat :| DecidedAt(a[1..], b[1..], n) {
        DecidedBehind(a, b, n);
      }
      if n: nat :| DecidedAt(a, b, n) {
        DecidedBehind(a, b, n - 1);
      }
    } else {
      assert Before(a, b) ==> DecidedAt(a, b, 0);
      if n: nat :| DecidedAt(a, b, n) {
        assert n > 0 ==> a[0] == a[..n][0] && b[0] == b[..n][0];
      }
    }
  }

  lemma DecidedBehind(a: string, b: string, n: nat)
    requires a != [] && b != [] && a[0] == b[0]
    ensures DecidedAt(a, b, n + 1) <==> DecidedAt(a[1..], b[1..], n)
  {
    if n + 1 <= |a| && n + 1 < |b| {
      assert a[..n + 1] == [a[0]] + a[1..][..n] && b[..n + 1] == [b[0]] + b[1..][..n];
    }
  }

  lemma {:induction false} BeforeTotal(a: string, b: string)
    ensures !Before(a, a)
    ensures a != b ==> Before(a, b) || Before(b, a)
  {
    if a != [] {
      BeforeTotal(a[1..], if b == [] then [] else b[1..]);
      if b != [] && a[0] == b[0] {
        assert a == [a[0]] + a[1..] && b == [b[0]] + b[1..];
      }
    }
  }

  lemma {:induction false} BeforeTransitive(a: string, b: string, c: string)
    requires Before(a, b) && Before(b, c)
    ensures Before(a, c)
  {
    if a != [] && a[0] == b[0] && b[0] == c[0] {
      BeforeTransitive(a[1..], b[1..], c[1..]);
    }
  }

  lemma NeverBoth(a: string, b: string)
    ensures !(Before(a, b) && Before(b, a))
  {
    if Before(a, b) && Before(b, a) {
      BeforeTransitive(a, b, a);
      BeforeTotal(a, a);
    }
  }

  lemma BeforeIsTotal()
    ensures StrictTotal(Before)
  {
    forall a, b ensures !Before(a, a) && (a != b ==> Before(a, b) || Before(b, a)) {
      BeforeTotal(a, b);
    }
    forall a, b, c | Before(a, b) && Before(b, c) ensures Before(a, c) {
      BeforeTransitive(a, b, c);
    }
  }

  /** A common beginning does not matter. */
  lemma {:induction false} BeforeCommon(p: string, x: string, y: string)
    ensures Before(p + x, p + y) <==> Before(x, y)
  {
    if p == [] {
      assert p + x == x && p + y == y;
    } else {
      assert (p + x)[1..] == p[1..] + x && (p + y)[1..] == p[1..] + y;
      BeforeCommon(p[1..], x, y);
    }
  }

  /** Equally long beginnings decide. */
  lemma {:induction false} BeforeExtends(p: string, q: string, x: string, y: string)
    requires |p| == |q| && Before(p, q)
    ensures Before(p + x, q + y)
  {
    assert (p + x)[1..] == p[1..] + x && (q + y)[1..] == q[1..] + y;
    if p[0] == q[0] {
      BeforeExtends(p[1..], q[1..], x, y);
    }
  }
}
