/** Sorting and top-k selection under a strict total order. */
module Ranking {

  ghost predicate StrictTotal<T(!new)>(less: (T, T) -> bool) {
    && (forall x :: !less(x, x))
    && (forall x, y :: x != y ==> less(x, y) || less(y, x))
    && (forall x, y, z :: less(x, y) && less(y, z) ==> less(x, z))
  }

  /** Strictly ascending, so without repetition. */
  ghost predicate Ascending<T>(less: (T, T) -> bool, xs: seq<T>) {
    forall i, j :: 0 <= i < j < |xs| ==> less(xs[i], xs[j])
  }

  function Elements<T>(xs: seq<T>): set<T> {
    set x | x in xs
  }

  ghost predicate NoRepeats<T>(xs: seq<T>) {
    forall i, j :: 0 <= i < j < |xs| ==> xs[i] != xs[j]
  }

  function Insert<T>(less: (T, T) -> bool, x: T, xs: seq<T>): seq<T> {
    if xs == [] then [x]
    else if less(x, xs[0]) then [x] + xs
    else [xs[0]] + Insert(less, x, xs[1..])
  }

  function Sort<T>(less: (T, T) -> bool, xs: seq<T>): seq<T> {
    if xs == [] then [] else Insert(less, xs[0], Sort(less, xs[1..]))
  }

  lemma {:induction false} InsertAscends<T(!new)>(less: (T, T) -> bool, x: T, xs: seq<T>)
    requires StrictTotal(less) && Ascending(less, xs) && x !in xs
    ensures Ascending(less, Insert(less, x, xs))
    ensures forall y :: y in Insert(less, x, xs) <==> y == x || y in xs
    ensures |Insert(less, x, xs)| == |xs| + 1
  {
    if xs != [] {
      if less(x, xs[0]) {
        assert forall j :: 0 < j < |xs| ==> less(xs[0], xs[j]);
      } else {
        InsertAscends(less, x, xs[1..]);
        var rest := Insert(less, x, xs[1..]);
        assert forall y :: y in rest ==> less(xs[0], y) by {
          forall y | y in rest ensures less(xs[0], y) {
            if y != x {
              var j :| 0 <= j < |xs[1..]| && xs[1..][j] == y;
              assert less(xs[0], xs[j + 1]);
            }
          }
        }
        assert forall y :: y in xs <==> y == xs[0] || y in xs[1..];
      }
    }
  }

  /** Sorting a list without repetitions arranges exactly its elements in ascending order. */
  lemma {:induction false} SortAscends<T(!new)>(less: (T, T) -> bool, xs: seq<T>)
    requires StrictTotal(less) && NoRepeats(xs)
    ensures Ascending(less, Sort(less, xs))
    ensures Elements(Sort(less, xs)) == Elements(xs) && |Sort(less, xs)| == |xs|
  {
    if xs != [] {
      var rest := xs[1..];
      assert forall i :: 0 <= i < |rest| ==> rest[i] == xs[i + 1];
      SortAscends(less, rest);
      assert xs[0] !in Elements(rest);
      assert xs[0] !in Sort(less, rest);
      InsertAscends(less, xs[0], Sort(less, rest));
      assert Elements(Sort(less, xs)) == {xs[0]} + Elements(Sort(less, rest));
      assert Elements(xs) == {xs[0]} + Elements(rest);
    }
  }

  /** There is only one ascending list of given elements. */
  lemma {:induction false} AscendingUnique<T(!new)>(less: (T, T) -> bool, a: seq<T>, b: seq<T>)
    requires StrictTotal(less) && Ascending(less, a) && Ascending(less, b)
    requires Elements(a) == Elements(b)
    ensures a == b
  {
    AscendingCard(less, a);
    AscendingCard(less, b);
    if a != [] {
      assert a[0] in Elements(b) && b[0] in Elements(a);
      FirstIsLeast(less, b, a[0]);
      FirstIsLeast(less, a, b[0]);
      AscendingTail(less, a);
      AscendingTail(less, b);
      AscendingUnique(less, a[1..], b[1..]);
    }
  }

  lemma FirstIsLeast<T(!new)>(less: (T, T) -> bool, xs: seq<T>, x: T)
    requires Ascending(less, xs) && x in Elements(xs)
    ensures x == xs[0] || less(xs[0], x)
  {
  }

  lemma AscendingCard<T(!new)>(less: (T, T) -> bool, xs: seq<T>)
    requires StrictTotal(less) && Ascending(less, xs)
    ensures |Elements(xs)| == |xs|
  {
    AscendingPrefixCard(less, xs, |xs|);
    assert xs[..|xs|] == xs;
  }

  lemma AscendingTail<T(!new)>(less: (T, T) -> bool, xs: seq<T>)
    requires StrictTotal(less) && Ascending(less, xs) && xs != []
    ensures Ascending(less, xs[1..]) && Elements(xs[1..]) == Elements(xs) - {xs[0]}
  {
  }

  lemma AscendingNoRepeats<T(!new)>(less: (T, T) -> bool, xs: seq<T>)
    requires StrictTotal(less) && Ascending(less, xs)
    ensures NoRepeats(xs)
  {
  }

  /** The elements of a set, in some order. */
  method ListOf<T(==)>(s: set<T>) returns (xs: seq<T>)
    ensures NoRepeats(xs) && Elements(xs) == s && |xs| == |s|
  {
    xs := [];
    var todo := s;
    while todo != {}
      invariant todo <= s && Elements(xs) == s - todo && NoRepeats(xs) && |xs| + |todo| == |s|
    {
      var x :| x in todo;
      assert x !in Elements(xs);
      ghost var before := xs;
      xs := xs + [x];
      assert Elements(xs) == Elements(before) + {x};
      todo := todo - {x};
    }
  }

  // ---- Top k -------------------------------------------------------------------------

  ghost function Better<T>(less: (T, T) -> bool, s: set<T>, x: T): set<T> {
    set y | y in s && less(y, x)
  }

  /** The members of `s` that fewer than `k` members precede. */
  ghost function TopSet<T>(less: (T, T) -> bool, s: set<T>, k: int): set<T> {
    set x | x in s && |Better(less, s, x)| < k
  }

  ghost predicate IsTop<T>(less: (T, T) -> bool, s: set<T>, k: int, top: seq<T>) {
    Ascending(less, top) && Elements(top) == TopSet(less, s, k)
  }

  lemma SmallerSet<T>(a: set<T>, b: set<T>)
    requires a <= b
    ensures |a| <= |b|
  {
    assert b == a + (b - a);
  }

  /** A new member can only push others out of the top: the top of a union is among the tops. */
  lemma TopOfLarger<T>(less: (T, T) -> bool, s: set<T>, t: set<T>, k: int)
    requires s <= t
    ensures TopSet(less, t, k) * s <= TopSet(less, s, k)
  {
    forall x | x in TopSet(less, t, k) * s ensures x in TopSet(less, s, k) {
      SmallerSet(Better(less, s, x), Better(less, t, x));
    }
  }

  /** Keeping at least the top `k` of a set keeps its top `k`. */
  lemma TopOfKept<T(!new)>(less: (T, T) -> bool, s: set<T>, kept: set<T>, k: int)
    requires StrictTotal(less) && TopSet(less, s, k) <= kept <= s
    ensures TopSet(less, kept, k) == TopSet(less, s, k)
  {
    TopOfLarger(less, kept, s, k);
    forall x | x in TopSet(less, kept, k) ensures x in TopSet(less, s, k) {
      if x !in TopSet(less, s, k) {
        // The best member outside the kept ones that precedes x would itself be in the top.
        BelowTop(less, s, k, x);
        assert TopSet(less, s, k) * Better(less, s, x) <= Better(less, kept, x);
        SmallerSet(TopSet(less, s, k) * Better(less, s, x), Better(less, kept, x));
      }
    }
  }

  /** Under a member outside the top `k` lie at least `k` members of the top. */
  lemma {:induction false} BelowTop<T(!new)>(less: (T, T) -> bool, s: set<T>, k: int, x: T)
    requires StrictTotal(less) && x in s && |Better(less, s, x)| >= k
    ensures |TopSet(less, s, k) * Better(less, s, x)| >= k
    decreases |Better(less, s, x)|
  {
    var better := Better(less, s, x);
    if better <= TopSet(less, s, k) {
      assert TopSet(less, s, k) * better == better;
    } else {
      var y :| y in better && y !in TopSet(less, s, k);
      assert Better(less, s, y) <= better && y in better && y !in Better(less, s, y);
      SmallerSet(Better(less, s, y) + {y}, better);
      BelowTop(less, s, k, y);
      SmallerSet(TopSet(less, s, k) * Better(less, s, y), TopSet(less, s, k) * better);
    }
  }

  /** Whatever is in the top precedes whatever is not. */
  lemma TopPrecedes<T(!new)>(less: (T, T) -> bool, s: set<T>, k: int, x: T, y: T)
    requires StrictTotal(less) && x in TopSet(less, s, k) && y in s - TopSet(less, s, k)
    ensures less(x, y)
  {
    if less(y, x) {
      SmallerSet(Better(less, s, y), Better(less, s, x));
    }
  }

  /** The top has `k` members, or all there are. */
  lemma TopHas<T(!new)>(less: (T, T) -> bool, s: set<T>, k: nat, top: seq<T>)
    requires StrictTotal(less) && IsTop(less, s, k, top)
    ensures |top| <= k && (Elements(top) != s ==> |top| == k)
  {
    AscendingCard(less, top);
    if top != [] {
      var n := |top| - 1;
      assert top[n] in TopSet(less, s, k);
      AscendingPrefixCard(less, top, n);
      forall x | x in Elements(top[..n]) ensures x in Better(less, s, top[n]) {
        assert x in Elements(top);
      }
      SmallerSet(Elements(top[..n]), Better(less, s, top[n]));
    }
    if Elements(top) != s {
      assert Elements(top) < s;
      var x :| x in s && x !in Elements(top);
      BelowTop(less, s, k, x);
      SmallerSet(TopSet(less, s, k) * Better(less, s, x), Elements(top));
    }
  }

  lemma AscendingIndex<T(!new)>(less: (T, T) -> bool, xs: seq<T>, j: nat, i: nat)
    requires StrictTotal(less) && Ascending(less, xs) && j < |xs| && i < |xs|
    requires less(xs[j], xs[i])
    ensures j < i
  {
  }

  /** The first `k` of an ascending list are the top `k` of its elements. */
  lemma TakeIsTop<T(!new)>(less: (T, T) -> bool, xs: seq<T>, k: nat)
    requires StrictTotal(less) && Ascending(less, xs)
    ensures IsTop(less, Elements(xs), k, xs[..if k < |xs| then k else |xs|])
  {
    var s, n := Elements(xs), if k < |xs| then k else |xs|;
    forall i | 0 <= i < |xs| ensures |Better(less, s, xs[i])| == i {
      AscendingPrefixCard(less, xs, i);
      assert Better(less, s, xs[i]) == Elements(xs[..i]) by {
        forall y | y in s && less(y, xs[i]) ensures y in Elements(xs[..i]) {
          var j :| 0 <= j < |xs| && xs[j] == y;
          AscendingIndex(less, xs, j, i);
          assert xs[..i][j] == y;
        }
        forall y | y in Elements(xs[..i]) ensures y in Better(less, s, xs[i]) {
          var j :| 0 <= j < i && xs[..i][j] == y;
          assert xs[j] == y && less(xs[j], xs[i]);
        }
      }
    }
    forall x | x in TopSet(less, s, k) ensures x in Elements(xs[..n]) {
      var i :| 0 <= i < |xs| && xs[i] == x;
      assert |Better(less, s, xs[i])| == i;
      assert xs[..n][i] == x;
    }
    forall x | x in Elements(xs[..n]) ensures x in TopSet(less, s, k) {
      var i :| 0 <= i < n && xs[..n][i] == x;
      assert xs[i] == x && |Better(less, s, xs[i])| == i;
    }
  }

  lemma {:induction false} AscendingPrefixCard<T(!new)>(less: (T, T) -> bool, xs: seq<T>, n: nat)
    requires StrictTotal(less) && Ascending(less, xs) && n <= |xs|
    ensures |Elements(xs[..n])| == n
  {
    if n > 0 {
      AscendingPrefixCard(less, xs, n - 1);
      NotEarlier(less, xs, n - 1);
      CardOfAppend(xs[..n - 1], xs[n - 1]);
      assert xs[..n] == xs[..n - 1] + [xs[n - 1]];
    }
  }

  lemma NotEarlier<T(!new)>(less: (T, T) -> bool, xs: seq<T>, k: nat)
    requires StrictTotal(less) && Ascending(less, xs) && k < |xs|
    ensures xs[k] !in xs[..k]
  {
  }

  lemma CardOfAppend<T>(xs: seq<T>, x: T)
    requires x !in xs
    ensures |Elements(xs + [x])| == |Elements(xs)| + 1
  {
    assert Elements(xs + [x]) == Elements(xs) + {x};
  }

  /** A list has as many elements as places if and only if none repeats. */
  lemma {:induction false} NoRepeatsCard<T>(xs: seq<T>)
    ensures |Elements(xs)| <= |xs| && (|Elements(xs)| == |xs| <==> NoRepeats(xs))
    decreases |xs|
  {
    if xs != [] {
      var init, x := xs[..|xs| - 1], xs[|xs| - 1];
      NoRepeatsCard(init);
      assert Elements(xs) == Elements(init) + {x};
      NoRepeatsNext(init, x);
      assert xs == init + [x];
    }
  }

  lemma NoRepeatsNext<T>(xs: seq<T>, x: T)
    ensures NoRepeats(xs + [x]) <==> NoRepeats(xs) && x !in xs
  {
    var all := xs + [x];
    assert forall i :: 0 <= i < |xs| ==> all[i] == xs[i];
    assert all[|xs|] == x;
  }
}
