/**
Whole runs from an empty log: the lines read back as they were written, and `verify` accepts them, exactly
when sorting the segments' names restores the order of the rotations. Otherwise `verify` rejects the log
from then on, whatever is appended, rotated, restarted or crashed later.
*/
module AuditOrder {
  import opened Common
  import opened Ranking
  import opened Lexical
  import opened SegmentNames
  import opened AuditChain
  import opened AuditSegments
  import opened AuditFiles
  import opened AuditRuns

  // ---- The names rotations take -------------------------------------------------------------------

  /** How many of the rotations came at `t`. */
  function Times(rotations: seq<Instant>, t: Instant): nat {
    multiset(rotations)[t]
  }

  /** The names of the segments, in the order of their rotations: each takes the first number left. */
  function Names(place: Place, rotations: seq<Instant>): (names: seq<string>)
    ensures |names| == |rotations|
    decreases |rotations|
  {
    if rotations == [] then []
    else
      var init, t := rotations[..|rotations| - 1], rotations[|rotations| - 1];
      Names(place, init) + [SegmentName(place, t, Times(init, t))]
  }

  predicate AllOnClock(rotations: seq<Instant>) {
    forall i :: 0 <= i < |rotations| ==> OnClock(rotations[i])
  }

  lemma NamesNext(place: Place, rotations: seq<Instant>, t: Instant)
    ensures Names(place, rotations + [t]) == Names(place, rotations) + [SegmentName(place, t, Times(rotations, t))]
    ensures forall u :: Times(rotations + [t], u) == Times(rotations, u) + if u == t then 1 else 0
  {
  }

  /** The numbers taken at an instant are those below the number of its rotations. */
  lemma {:induction false} Taken(place: Place, rotations: seq<Instant>, t: Instant, n: nat)
    requires AllOnClock(rotations) && OnClock(t)
    ensures SegmentName(place, t, n) in Names(place, rotations) <==> n < Times(rotations, t)
    decreases |rotations|
  {
    if rotations != [] {
      var init, u := rotations[..|rotations| - 1], rotations[|rotations| - 1];
      assert rotations == init + [u];
      NamesNext(place, init, u);
      Taken(place, init, t, n);
      if SegmentName(place, t, n) == SegmentName(place, u, Times(init, u)) {
        NamesAreDistinct(place, t, n, u, Times(init, u));
      }
    }
  }

  lemma TakenFile(place: Place, files: Files, rotations: seq<Instant>, t: Instant, n: nat)
    requires AllOnClock(rotations) && OnClock(t) && Elements(Names(place, rotations)) == Segments(place, files)
    ensures SegmentName(place, t, n) in files <==> n < Times(rotations, t)
  {
    SegmentsMatch(place, t, n);
    Taken(place, rotations, t, n);
    assert SegmentName(place, t, n) in Elements(Names(place, rotations)) <==>
             SegmentName(place, t, n) in Names(place, rotations);
  }

  /** So the first free name has the number of rotations at that instant so far. */
  lemma FirstFreeIs(place: Place, files: Files, rotations: seq<Instant>, t: Instant, n: nat)
    requires AllOnClock(rotations) && OnClock(t) && Elements(Names(place, rotations)) == Segments(place, files)
    requires FirstFree(place, files, t, n)
    ensures n == Times(rotations, t)
  {
    TakenFile(place, files, rotations, t, n);
    if n > Times(rotations, t) {
      TakenFile(place, files, rotations, t, Times(rotations, t));
    }
  }

  // ---- When the names sort in the order of the rotations --------------------------------------------

  /**
  The rotations keep the order of the log: with a suffix they come at ever later instants, without one at
  instants that never go back, and at most ten at each.
  */
  ghost predicate KeepsOrder(place: Place, rotations: seq<Instant>) {
    if place.suffix != "" then EverLater(rotations)
    else NeverBack(rotations) && AtMostTen(rotations)
  }

  ghost predicate NeverBack(rotations: seq<Instant>) {
    forall i, j :: 0 <= i < j < |rotations| ==> Number(rotations[i]) <= Number(rotations[j])
  }

  /** The name of a rotation at `t` after the given ones sorts behind all theirs. */
  ghost predicate SortsLast(place: Place, rotations: seq<Instant>, t: Instant) {
    forall i :: 0 <= i < |rotations| ==>
      Number(rotations[i]) < Number(t) || (rotations[i] == t && place.suffix == "" && Times(rotations, t) < 10)
  }

  lemma {:induction false} NamedAt(place: Place, rotations: seq<Instant>, i: nat)
    requires i < |rotations|
    ensures Names(place, rotations)[i] == SegmentName(place, rotations[i], Times(rotations[..i], rotations[i]))
    decreases |rotations|
  {
    var init := rotations[..|rotations| - 1];
    if i < |init| {
      NamedAt(place, init, i);
      assert init[..i] == rotations[..i];
    }
  }

  /** Not so behind a name that was taken at the same instant, if there is a suffix or ten names are taken. */
  lemma BehindTaken(place: Place, rotations: seq<Instant>, t: Instant, m: nat)
    requires AllOnClock(rotations) && OnClock(t) && m < Times(rotations, t)
    requires Before(Tail(place, Times(rotations, t)), Tail(place, m))
    ensures exists name :: name in Names(place, rotations) && !Before(name, SegmentName(place, t, Times(rotations, t)))
  {
    Taken(place, rotations, t, m);
    SegmentsSort(place, t, Times(rotations, t), t, m);
    NeverBoth(SegmentName(place, t, m), SegmentName(place, t, Times(rotations, t)));
  }

  lemma NotBehind(place: Place, rotations: seq<Instant>, t: Instant)
    requires Splits(place) && AllOnClock(rotations) && OnClock(t) && KeepsOrder(place, rotations)
    requires Times(rotations, t) > 0 && (place.suffix != "" || Times(rotations, t) >= 10)
    ensures exists name :: name in Names(place, rotations) && !Before(name, SegmentName(place, t, Times(rotations, t)))
  {
    if place.suffix != "" {
      HyphenBeforeDot(place, Times(rotations, t));
      BehindTaken(place, rotations, t, 0);
    } else {
      TailsInTurn(place, 0, 0);
      BehindTaken(place, rotations, t, 2);
    }
  }

  lemma OneBehind(place: Place, rotations: seq<Instant>, t: Instant, i: nat)
    requires AllOnClock(rotations) && OnClock(t) && i < |rotations| && SortsLast(place, rotations, t)
    ensures Before(Names(place, rotations)[i], SegmentName(place, t, Times(rotations, t)))
  {
    NamedAt(place, rotations, i);
    var n := Times(rotations[..i], rotations[i]);
    SegmentsSort(place, rotations[i], n, t, Times(rotations, t));
    if rotations[i] == t {
      Taken(place, rotations, t, n);
      TailsInTurn(place, n, Times(rotations, t));
    }
  }

  lemma OneEarlier(place: Place, rotations: seq<Instant>, t: Instant, i: nat)
    requires AllOnClock(rotations) && OnClock(t) && i < |rotations|
    requires Before(Names(place, rotations)[i], SegmentName(place, t, Times(rotations, t)))
    ensures Number(rotations[i]) < Number(t) || rotations[i] == t
  {
    NamedAt(place, rotations, i);
    SegmentsSort(place, rotations[i], Times(rotations[..i], rotations[i]), t, Times(rotations, t));
    if Number(rotations[i]) == Number(t) {
      NumberIsInjective(rotations[i], t);
    }
  }

  ghost predicate AllBefore(names: seq<string>, name: string) {
    forall other :: other in names ==> Before(other, name)
  }

  /** While the order is kept, the next name sorts behind all others exactly as said. */
  lemma NextSortsLast(place: Place, rotations: seq<Instant>, t: Instant)
    requires Splits(place) && AllOnClock(rotations) && OnClock(t) && KeepsOrder(place, rotations)
    ensures AllBefore(Names(place, rotations), SegmentName(place, t, Times(rotations, t))) <==>
              SortsLast(place, rotations, t)
  {
    var names, name := Names(place, rotations), SegmentName(place, t, Times(rotations, t));
    if SortsLast(place, rotations, t) {
      forall other | other in names ensures Before(other, name) {
        var i :| 0 <= i < |names| && names[i] == other;
        OneBehind(place, rotations, t, i);
      }
    }
    if AllBefore(names, name) {
      forall i | 0 <= i < |rotations|
        ensures Number(rotations[i]) < Number(t) ||
                (rotations[i] == t && place.suffix == "" && Times(rotations, t) < 10)
      {
        assert names[i] in names;
        OneEarlier(place, rotations, t, i);
        if rotations[i] == t && (place.suffix != "" || Times(rotations, t) >= 10) {
          NotBehind(place, rotations, t);
          assert false;
        }
      }
    }
  }

  lemma EverLaterNext(rotations: seq<Instant>, t: Instant)
    requires OnClock(t)
    ensures EverLater(rotations + [t]) <==> EverLater(rotations) && Later(t, rotations)
  {
    var all := rotations + [t];
    assert all[|rotations|] == t && forall i :: 0 <= i < |rotations| ==> all[i] == rotations[i];
  }

  lemma NeverBackNext(rotations: seq<Instant>, t: Instant)
    ensures NeverBack(rotations + [t]) <==>
            NeverBack(rotations) && forall i :: 0 <= i < |rotations| ==> Number(rotations[i]) <= Number(t)
  {
    var all := rotations + [t];
    assert all[|rotations|] == t && forall i :: 0 <= i < |rotations| ==> all[i] == rotations[i];
  }

  ghost predicate AtMostTen(rotations: seq<Instant>) {
    forall t :: Times(rotations, t) <= 10
  }

  lemma AtMostTenNext(place: Place, rotations: seq<Instant>, t: Instant)
    ensures AtMostTen(rotations + [t]) <==> AtMostTen(rotations) && Times(rotations, t) < 10
  {
    NamesNext(place, rotations, t);
    assert Times(rotations + [t], t) == Times(rotations, t) + 1;
    assert forall u :: Times(rotations, u) <= Times(rotations + [t], u);
  }

  lemma SortsLastPlain(place: Place, rotations: seq<Instant>, t: Instant)
    requires AllOnClock(rotations) && OnClock(t) && place.suffix == "" && AtMostTen(rotations)
    ensures SortsLast(place, rotations, t) <==>
            Times(rotations, t) < 10 && forall i :: 0 <= i < |rotations| ==> Number(rotations[i]) <= Number(t)
  {
    forall i | 0 <= i < |rotations| && Number(rotations[i]) == Number(t) ensures rotations[i] == t {
      NumberIsInjective(rotations[i], t);
    }
    if Times(rotations, t) > 0 {
      assert t in multiset(rotations);
      var i :| 0 <= i < |rotations| && rotations[i] == t;
    }
  }

  lemma KeepsNext(place: Place, rotations: seq<Instant>, t: Instant)
    requires AllOnClock(rotations) && OnClock(t)
    ensures KeepsOrder(place, rotations + [t]) <==> KeepsOrder(place, rotations) && SortsLast(place, rotations, t)
  {
    if place.suffix != "" {
      EverLaterNext(rotations, t);
    } else {
      NeverBackNext(rotations, t);
      AtMostTenNext(place, rotations, t);
      if AtMostTen(rotations) {
        SortsLastPlain(place, rotations, t);
      }
    }
  }

  lemma AscendingNext(names: seq<string>, name: string)
    ensures Ascending(Before, names + [name]) <==> Ascending(Before, names) && AllBefore(names, name)
  {
    var all := names + [name];
    if Ascending(Before, all) {
      forall other | other in names ensures Before(other, name) {
        var i :| 0 <= i < |names| && names[i] == other;
        assert all[i] == other && all[|names|] == name;
      }
      forall i, j | 0 <= i < j < |names| ensures Before(names[i], names[j]) {
        assert all[i] == names[i] && all[j] == names[j];
      }
    }
  }

  /** The names sort in the order of the rotations if and only if the rotations keep it. */
  lemma {:induction false} SortedExactly(place: Place, rotations: seq<Instant>)
    requires Splits(place) && AllOnClock(rotations)
    ensures Ascending(Before, Names(place, rotations)) <==> KeepsOrder(place, rotations)
    decreases |rotations|
  {
    if rotations == [] {
      assert Names(place, rotations) == [];
    } else {
      var init, t := rotations[..|rotations| - 1], rotations[|rotations| - 1];
      assert rotations == init + [t];
      SortedExactly(place, init);
      NamesNext(place, init, t);
      AscendingNext(Names(place, init), SegmentName(place, t, Times(init, t)));
      KeepsNext(place, init, t);
      if KeepsOrder(place, init) {
        NextSortsLast(place, init, t);
      }
    }
  }

  // ---- A chain that is out of order -----------------------------------------------------------------

  lemma {:induction false} LinkedDistinct(digest: Digest, chain: seq<Link>)
    requires Sound(digest) && Linked(digest, chain)
    ensures AllDiffer(chain)
    decreases |chain|
  {
    if chain != [] {
      var init := chain[..|chain| - 1];
      LinkedDistinct(digest, init);
      if i :| 0 <= i < |init| && init[i] == chain[|chain| - 1] {
        LinkedPrefix(digest, chain, i + 1);
        assert chain[..i + 1][..i] == chain[..i];
        LinkedSame(digest, chain[..i], init);
      }
    }
  }

  lemma {:induction false} LinkedPrefix(digest: Digest, chain: seq<Link>, n: nat)
    requires Linked(digest, chain) && n <= |chain|
    ensures Linked(digest, chain[..n])
    decreases |chain|
  {
    if n < |chain| {
      LinkedPrefix(digest, chain[..|chain| - 1], n);
      assert chain[..|chain| - 1][..n] == chain[..n];
    } else {
      assert chain[..n] == chain;
    }
  }

  predicate AllDiffer(chain: seq<Link>)
    decreases |chain|
  {
    chain == [] || (chain[|chain| - 1] !in chain[..|chain| - 1] && AllDiffer(chain[..|chain| - 1]))
  }

  lemma {:induction false} DistinctParts(p: seq<Link>, q: seq<Link>)
    requires AllDiffer(p + q)
    ensures AllDiffer(p) && forall x :: x in p ==> x !in q
    decreases |q|
  {
    if q == [] {
      assert p + q == p;
    } else {
      assert (p + q)[..|p + q| - 1] == p + q[..|q| - 1];
      DistinctParts(p, q[..|q| - 1]);
    }
  }

  lemma LinkedAt(digest: Digest, chain: seq<Link>, i: nat)
    requires Linked(digest, chain) && i < |chain|
    ensures LinksTo(digest, chain[..i], chain[i])
  {
    LinkedPrefix(digest, chain, i + 1);
    assert chain[..i + 1][..i] == chain[..i];
  }

  /** In a linked chain no event links to one behind it. */
  lemma NoLinkForward(digest: Digest, p: seq<Link>, q: seq<Link>, x: Link, y: Link)
    requires Sound(digest) && Linked(digest, p + q) && y in p && x in q
    ensures y.body.prevHash != Some(x.hash)
  {
    var i, j :| 0 <= i < |p| && p[i] == y && 0 <= j < |q| && q[j] == x;
    LinkedAt(digest, p + q, i);
    LinkedAt(digest, p + q, |p| + j);
    assert (p + q)[..i] == p[..i] && (p + q)[i] == y && (p + q)[|p| + j] == x;
    LinkedDistinct(digest, p + q);
    DistinctParts(p, q);
    if i > 0 && p[i - 1].hash == x.hash {
      LinkedAt(digest, p + q, i - 1);
    }
  }

  /** The hashed events of a file. */
  function EventsAt(files: Files, name: string): seq<Link> {
    Chained(FileAt(files, name))
  }

  lemma EventIn(files: Files, names: seq<string>, i: nat, e: Link)
    requires i < |names| && e in EventsAt(files, names[i])
    ensures e in Chained(Joined(files, names))
  {
    JoinedSteps(files, names, i);
    var a, own, b := Joined(files, names[..i]), FileAt(files, names[i]), Joined(files, names[i + 1..]);
    ChainedConcat(a, own);
    ChainedConcat(a + own, b);
  }

  /** An event stands in a segment that sorts before the segment of the event it links to. */
  ghost predicate Inverted(place: Place, files: Files) {
    exists f, g, x, y :: InvertedBy(place, files, f, g, x, y)
  }

  ghost predicate InvertedBy(place: Place, files: Files, f: string, g: string, x: Link, y: Link) {
    && f in files && g in files && IsSegment(place, f) && IsSegment(place, g) && Before(f, g)
    && y in EventsAt(files, f) && x in EventsAt(files, g) && y.body.prevHash == Some(x.hash)
  }

  /** Such a log does not read intact. */
  lemma InvertedBreaks(place: Place, digest: Digest, files: Files)
    requires Sound(digest) && Inverted(place, files)
    ensures !Intact(digest, LogOf(place, files))
  {
    var f, g, x, y :| InvertedBy(place, files, f, g, x, y);
    var names := Listing(place, files);
    var p, q := InvertedParts(place, files, names, f, g, x, y);
    var live := FileAt(files, LiveName(place));
    ChainedConcat(Joined(files, names), live);
    if Intact(digest, LogOf(place, files)) {
      IntactPrefix(digest, Joined(files, names), live);
      IntactMeansLinked(digest, Joined(files, names));
      NoLinkForward(digest, p, q, x, y);
    }
  }

  lemma InvertedParts(place: Place, files: Files, names: seq<string>, f: string, g: string, x: Link, y: Link)
    returns (p: seq<Link>, q: seq<Link>)
    requires IsListing(place, files, names) && InvertedBy(place, files, f, g, x, y)
    ensures Chained(Joined(files, names)) == p + q && y in p && x in q
  {
    assert f in Elements(names) && g in Elements(names);
    var i, j :| 0 <= i < |names| && names[i] == f && 0 <= j < |names| && names[j] == g;
    AscendingPlaces(names, i, j);
    JoinedSplit(files, names, j);
    ChainedConcat(Joined(files, names[..j]), Joined(files, names[j..]));
    p, q := Chained(Joined(files, names[..j])), Chained(Joined(files, names[j..]));
    EventIn(files, names[..j], i, y);
    EventIn(files, names[j..], 0, x);
  }

  lemma AscendingPlaces(names: seq<string>, i: nat, j: nat)
    requires Ascending(Before, names) && i < |names| && j < |names| && Before(names[i], names[j])
    ensures i < j
  {
    NeverBoth(names[i], names[j]);
  }

  /** Segments are never written to or renamed, so what is inverted stays inverted. */
  lemma InvertedStays(place: Place, files: Files, next: Files)
    requires Inverted(place, files)
    requires forall name :: name in files && IsSegment(place, name) ==> name in next && next[name] == files[name]
    ensures Inverted(place, next)
  {
    var f, g, x, y :| InvertedBy(place, files, f, g, x, y);
    assert InvertedBy(place, next, f, g, x, y);
  }

  // ---- A run as a function of its steps ----------------------------------------------------------------

  /** What stays the same about a log. */
  datatype Setup = Setup(place: Place, digest: Digest, maxBytes: nat, size: seq<Line> -> nat)

  /** What changes: the files, the hash to link to, and the instants of the rotations. */
  datatype State = State(files: Files, last: string, rotations: seq<Instant>)

  const EMPTY := State(map[], GENESIS, [])

  predicate Due(c: Setup, files: Files) {
    c.maxBytes > 0 && LiveName(c.place) in files && c.size(files[LiveName(c.place)]) >= c.maxBytes
  }

  function AfterRotating(c: Setup, s: State, t: Instant): State {
    if Due(c, s.files) then State(Rotated(c.place, s.files, t, Times(s.rotations, t)), s.last, s.rotations + [t]) else s
  }

  function AfterWriting(c: Setup, s: State, event: Body, eventId: string): State {
    var line := NextLine(c.digest, event, eventId, s.last);
    State(Written(s.files, LiveName(c.place), line), line.hash, s.rotations)
  }

  ghost function AfterLoading(c: Setup, s: State): State {
    s.(last := LastHash(LogOf(c.place, s.files)))
  }

  ghost function AfterStep(c: Setup, s: State, step: Step): State {
    match step
    case Appending(event, eventId, at) => AfterWriting(c, AfterRotating(c, s, at), event, eventId)
    case Restarting => AfterLoading(c, s)
    case CrashedAfterRotation(at) => AfterLoading(c, AfterRotating(c, s, at))
  }

  ghost function AfterRun(c: Setup, script: seq<Step>): State
    decreases |script|
  {
    if script == [] then EMPTY else AfterStep(c, AfterRun(c, script[..|script| - 1]), script[|script| - 1])
  }

  predicate AllStepsOnClock(script: seq<Step>) {
    forall i :: 0 <= i < |script| ==> StepOnClock(script[i])
  }

  // ---- What every run keeps -------------------------------------------------------------------------------

  /** The segments are those of the rotations. */
  ghost predicate Tracked(place: Place, s: State) {
    AllOnClock(s.rotations) && Elements(Names(place, s.rotations)) == Segments(place, s.files)
  }

  /** The log reads as it was written. */
  ghost predicate ReadsAs(c: Setup, s: State, written: seq<Line>) {
    && LogOf(c.place, s.files) == written && Intact(c.digest, written) && s.last == LastHash(written)
    && AllChained(s.files)
  }

  /** Either the order was kept and the log reads as written, or it is inverted for good. */
  ghost predicate Kept(c: Setup, s: State, written: seq<Line>) {
    && Tracked(c.place, s)
    && if KeepsOrder(c.place, s.rotations) then ReadsAs(c, s, written) else Inverted(c.place, s.files)
  }

  lemma TrackedRotates(place: Place, s: State, t: Instant)
    requires Tracked(place, s) && OnClock(t) && LiveName(place) in s.files
    ensures SegmentName(place, t, Times(s.rotations, t)) !in s.files
    ensures Tracked(place, State(Rotated(place, s.files, t, Times(s.rotations, t)), s.last, s.rotations + [t]))
  {
    var n := Times(s.rotations, t);
    TakenFile(place, s.files, s.rotations, t, n);
    SegmentsMatch(place, t, n);
    RenamedSegments(place, s.files, LiveName(place), SegmentName(place, t, n));
    NamesNext(place, s.rotations, t);
    ElementsOfAppend(Names(place, s.rotations), SegmentName(place, t, n));
  }

  lemma ElementsOfAppend(names: seq<string>, name: string)
    ensures Elements(names + [name]) == Elements(names) + {name}
  {
  }

  lemma ListedInTurn(place: Place, s: State)
    requires Splits(place) && Tracked(place, s) && KeepsOrder(place, s.rotations)
    ensures Listing(place, s.files) == Names(place, s.rotations)
  {
    SortedExactly(place, s.rotations);
    ListingUnique(place, s.files, Listing(place, s.files), Names(place, s.rotations));
  }

  /** A rotation that keeps the order keeps the lines. */
  lemma RotatesInOrder(c: Setup, s: State, written: seq<Line>, t: Instant)
    requires Splits(c.place) && Tracked(c.place, s) && OnClock(t) && LiveName(c.place) in s.files
    requires KeepsOrder(c.place, s.rotations + [t]) && ReadsAs(c, s, written)
    ensures ReadsAs(c, State(Rotated(c.place, s.files, t, Times(s.rotations, t)), s.last, s.rotations + [t]), written)
  {
    KeepsNext(c.place, s.rotations, t);
    NextSortsLast(c.place, s.rotations, t);
    ListedInTurn(c.place, s);
    TrackedRotates(c.place, s, t);
    RotateLast(c.place, s.files, t, Times(s.rotations, t));
    RotatedChained(s.files, LiveName(c.place), SegmentName(c.place, t, Times(s.rotations, t)));
  }

  lemma RotatedChained(files: Files, live: string, name: string)
    requires live in files && AllChained(files)
    ensures AllChained(Renamed(files, live, name))
  {
  }

  /** A rotation that does not keep the order moves the live file in front of the segment it links to. */
  lemma RotationInverts(c: Setup, s: State, written: seq<Line>, t: Instant)
    requires Sound(c.digest) && Splits(c.place) && Tracked(c.place, s) && OnClock(t) && LiveName(c.place) in s.files
    requires KeepsOrder(c.place, s.rotations) && !KeepsOrder(c.place, s.rotations + [t]) && ReadsAs(c, s, written)
    ensures Inverted(c.place, Rotated(c.place, s.files, t, Times(s.rotations, t)))
  {
    var names, name := Listing(c.place, s.files), SegmentName(c.place, t, Times(s.rotations, t));
    NextIsBehind(c.place, s, t, names, name);
    var x, y := Adjoining(c, s, written, names);
    SegmentsMatch(c.place, t, Times(s.rotations, t));
    ListedAreFiles(c.place, s.files, names);
    MovesInFront(c.place, s.files, name, names[|names| - 1], x, y);
  }

  lemma NextIsBehind(place: Place, s: State, t: Instant, names: seq<string>, name: string)
    requires names == Listing(place, s.files) && name == SegmentName(place, t, Times(s.rotations, t))
    requires Splits(place) && Tracked(place, s) && OnClock(t) && LiveName(place) in s.files
    requires KeepsOrder(place, s.rotations) && !KeepsOrder(place, s.rotations + [t])
    ensures name !in s.files && names != [] && names[|names| - 1] in s.files && Before(name, names[|names| - 1])
  {
    TrackedRotates(place, s, t);
    ListedAreFiles(place, s.files, names);
    NotBehindAll(place, s, t);
    LastIsBehind(names, name);
  }

  lemma ListedAreFiles(place: Place, files: Files, names: seq<string>)
    requires IsListing(place, files, names)
    ensures forall name :: name in names ==> name in files && IsSegment(place, name)
  {
    assert forall name :: name in names ==> name in Elements(names);
  }

  lemma NotBehindAll(place: Place, s: State, t: Instant)
    requires Splits(place) && Tracked(place, s) && OnClock(t)
    requires KeepsOrder(place, s.rotations) && !KeepsOrder(place, s.rotations + [t])
    ensures !AllBefore(Listing(place, s.files), SegmentName(place, t, Times(s.rotations, t)))
  {
    KeepsNext(place, s.rotations, t);
    NextSortsLast(place, s.rotations, t);
    ListedInTurn(place, s);
  }

  lemma MovesInFront(place: Place, files: Files, name: string, g: string, x: Link, y: Link)
    requires LiveName(place) in files && name !in files && g in files && IsSegment(place, name) && IsSegment(place, g)
    requires Before(name, g) && x in EventsAt(files, g) && y in EventsAt(files, LiveName(place)) &&
             y.body.prevHash == Some(x.hash)
    ensures Inverted(place, Renamed(files, LiveName(place), name))
  {
    SegmentsMatch(place, Instant(0, 0, 0, 0, 0, 0, 0), 0);
    assert InvertedBy(place, Renamed(files, LiveName(place), name), name, g, x, y);
  }

  lemma LastIsBehind(names: seq<string>, name: string)
    requires Ascending(Before, names) && name !in names && !AllBefore(names, name)
    ensures names != [] && Before(name, names[|names| - 1])
  {
    var i :| 0 <= i < |names| && !Before(names[i], name);
    BeforeTotal(names[i], name);
    if i < |names| - 1 {
      BeforeTransitive(name, names[i], names[|names| - 1]);
    }
  }

  /** The last event of the last segment, and the first of the live file, which links to it. */
  lemma Adjoining(c: Setup, s: State, written: seq<Line>, names: seq<string>) returns (x: Link, y: Link)
    requires Sound(c.digest) && ReadsAs(c, s, written) && LiveName(c.place) in s.files
    requires names == Listing(c.place, s.files) && names != [] && names[|names| - 1] in s.files
    ensures x in EventsAt(s.files, names[|names| - 1]) && y in EventsAt(s.files, LiveName(c.place))
    ensures y.body.prevHash == Some(x.hash)
  {
    x, y := LastAndFirst(c.digest, Joined(s.files, names[..|names| - 1]), s.files[names[|names| - 1]],
                         s.files[LiveName(c.place)]);
  }

  lemma LastAndFirst(digest: Digest, init: seq<Line>, own: seq<Line>, live: seq<Line>) returns (x: Link, y: Link)
    requires Sound(digest) && Intact(digest, (init + own) + live) && Chained(own) != [] && Chained(live) != []
    ensures x in Chained(own) && y in Chained(live) && y.body.prevHash == Some(x.hash)
  {
    ChainedConcat(init, own);
    ChainedConcat(init + own, live);
    IntactMeansLinked(digest, (init + own) + live);
    x, y := Chained(own)[|Chained(own)| - 1], Chained(live)[0];
    LinkAcross(digest, Chained(init), Chained(own), Chained(live));
  }

  lemma LinkAcross(digest: Digest, a: seq<Link>, b: seq<Link>, c: seq<Link>)
    requires b != [] && c != [] && Linked(digest, (a + b) + c)
    ensures c[0].body.prevHash == Some(b[|b| - 1].hash)
  {
    LinkedAt(digest, (a + b) + c, |a + b|);
    assert ((a + b) + c)[..|a + b|] == a + b && ((a + b) + c)[|a + b|] == c[0];
  }

  lemma KeptRotates(c: Setup, s: State, written: seq<Line>, t: Instant)
    requires Sound(c.digest) && Splits(c.place) && Kept(c, s, written) && OnClock(t)
    ensures Kept(c, AfterRotating(c, s, t), written)
  {
    if Due(c, s.files) {
      TrackedRotates(c.place, s, t);
      KeepsNext(c.place, s.rotations, t);
      if KeepsOrder(c.place, s.rotations + [t]) {
        RotatesInOrder(c, s, written, t);
      } else if KeepsOrder(c.place, s.rotations) {
        RotationInverts(c, s, written, t);
      } else {
        RotationLeavesSegments(c.place, s.files, SegmentName(c.place, t, Times(s.rotations, t)));
        InvertedStays(c.place, s.files, AfterRotating(c, s, t).files);
      }
    }
  }

  lemma RotationLeavesSegments(place: Place, files: Files, to: string)
    requires LiveName(place) in files && to !in files
    ensures forall name :: name in files && IsSegment(place, name) ==>
              var next := Renamed(files, LiveName(place), to); name in next && next[name] == files[name]
  {
    SegmentsMatch(place, Instant(0, 0, 0, 0, 0, 0, 0), 0);
  }

  lemma WritesInOrder(c: Setup, s: State, written: seq<Line>, event: Body, eventId: string)
    requires Sound(c.digest) && ReadsAs(c, s, written)
    ensures ReadsAs(c, AfterWriting(c, s, event, eventId),
                    written + [NextLine(c.digest, event, eventId, LastHash(written))])
  {
    var line := NextLine(c.digest, event, eventId, s.last);
    WriteExtends(c.place, s.files, line);
    NextFits(c.digest, written, event, eventId);
    WrittenChained(s.files, LiveName(c.place), line);
  }

  lemma WrittenChained(files: Files, live: string, line: Line)
    requires AllChained(files) && Hashed(line)
    ensures AllChained(Written(files, live, line))
  {
  }

  lemma KeptWrites(c: Setup, s: State, written: seq<Line>, event: Body, eventId: string)
    requires Sound(c.digest) && Kept(c, s, written)
    ensures Kept(c, AfterWriting(c, s, event, eventId),
                 written + [NextLine(c.digest, event, eventId, LastHash(written))])
  {
    var line := NextLine(c.digest, event, eventId, s.last);
    ListingSame(c.place, s.files, line);
    if KeepsOrder(c.place, s.rotations) {
      WritesInOrder(c, s, written, event, eventId);
    } else {
      InvertedWrites(c.place, s.files, line);
    }
  }

  lemma InvertedWrites(place: Place, files: Files, line: Line)
    requires Inverted(place, files)
    ensures Inverted(place, Written(files, LiveName(place), line))
  {
    SegmentsMatch(place, Instant(0, 0, 0, 0, 0, 0, 0), 0);
    InvertedStays(place, files, Written(files, LiveName(place), line));
  }

  /** Whatever hash a restart loads from an inverted log, the log stays inverted. */
  lemma KeptLoads(c: Setup, s: State, written: seq<Line>)
    requires Kept(c, s, written)
    ensures Kept(c, AfterLoading(c, s), written)
  {
  }

  lemma KeptStep(c: Setup, s: State, written: seq<Line>, step: Step)
    requires Sound(c.digest) && Splits(c.place) && Kept(c, s, written) && StepOnClock(step)
    ensures Kept(c, AfterStep(c, s, step), written + StepLines(c.digest, LastAfter(GENESIS, written), step))
  {
    match step {
      case Appending(event, eventId, at) =>
        KeptRotates(c, s, written, at);
        KeptWrites(c, AfterRotating(c, s, at), written, event, eventId);
      case Restarting =>
        KeptLoads(c, s, written);
        assert written + [] == written;
      case CrashedAfterRotation(at) =>
        KeptRotates(c, s, written, at);
        KeptLoads(c, AfterRotating(c, s, at), written);
        assert written + [] == written;
    }
  }

  lemma EmptyElements(xs: seq<string>)
    ensures Elements(xs) == {} <==> xs == []
  {
    if xs != [] {
      assert xs[0] in Elements(xs);
    }
  }

  lemma EmptyIsKept(c: Setup)
    ensures Kept(c, EMPTY, [])
  {
    assert Segments(c.place, EMPTY.files) == {};
    EmptyElements(Listing(c.place, EMPTY.files));
    assert LogOf(c.place, EMPTY.files) == [];
  }

  lemma {:induction false} RunIsKept(c: Setup, script: seq<Step>)
    requires Sound(c.digest) && Splits(c.place) && AllStepsOnClock(script)
    ensures Kept(c, AfterRun(c, script), NewLines(c.digest, GENESIS, script))
    decreases |script|
  {
    if script == [] {
      EmptyIsKept(c);
    } else {
      var init := script[..|script| - 1];
      RunIsKept(c, init);
      KeptStep(c, AfterRun(c, init), NewLines(c.digest, GENESIS, init), script[|script| - 1]);
    }
  }

  /**
  Over every run of appends, rotations, restarts and crashes between rename and write, from an empty log:
  `verify` accepts the log if and only if the rotations keep the order, and then it holds exactly the
  appended events.
  */
  lemma RunReadsBack(c: Setup, script: seq<Step>)
    requires Sound(c.digest) && Splits(c.place) && AllStepsOnClock(script)
    ensures var s := AfterRun(c, script);
            && (Intact(c.digest, LogOf(c.place, s.files)) <==> KeepsOrder(c.place, s.rotations))
            && (KeepsOrder(c.place, s.rotations) ==> LogOf(c.place, s.files) == NewLines(c.digest, GENESIS, script))
  {
    RunIsKept(c, script);
    var s := AfterRun(c, script);
    if !KeepsOrder(c.place, s.rotations) {
      InvertedBreaks(c.place, c.digest, s.files);
    }
  }

  // ---- The object takes the same steps ---------------------------------------------------------------------

  ghost function SetupOf(log: AuditLog): Setup {
    Setup(log.place, log.digest, log.maxBytes, log.size)
  }

  ghost function StateOf(log: AuditLog): State
    reads log
  {
    State(log.files, log.lastHash, log.rotations)
  }

  method Advance(log: AuditLog, step: Step)
    requires StepOnClock(step) && Tracked(log.place, StateOf(log))
    modifies log
    ensures StateOf(log) == AfterStep(SetupOf(log), old(StateOf(log)), step)
  {
    ghost var files, rotations, rotates := log.files, log.rotations, log.Rotates();
    ghost var n;
    match step {
      case Appending(event, eventId, at) =>
        n := log.Append(event, eventId, at);
        if rotates {
          FirstFreeIs(log.place, files, rotations, at, n);
        }
      case Restarting =>
        log.Restart();
      case CrashedAfterRotation(at) =>
        n := log.MaybeRotate(at);
        if rotates {
          FirstFreeIs(log.place, files, rotations, at, n);
        }
        log.Restart();
    }
  }

  /** Play a script on an empty log and verify the result. */
  method RunThenVerify(log: AuditLog, script: seq<Step>) returns (ok: bool, index: int)
    requires StateOf(log) == EMPTY && Sound(log.digest) && Splits(log.place) && AllStepsOnClock(script)
    modifies log
    ensures StateOf(log) == AfterRun(SetupOf(log), script)
    ensures ok <==> KeepsOrder(log.place, log.rotations)
    ensures ok ==> index == -1 && log.Log() == NewLines(log.digest, GENESIS, script)
    ensures !ok ==> FirstOffence(log.digest, log.Log(), index)
  {
    ghost var c := SetupOf(log);
    for i := 0 to |script|
      invariant StateOf(log) == AfterRun(c, script[..i])
    {
      assert script[..i + 1][..i] == script[..i];
      RunIsKept(c, script[..i]);
      Advance(log, script[i]);
    }
    assert script[..|script|] == script;
    ok, index := log.Verify();
    RunReadsBack(c, script);
  }

  /** The failing input: two rotations at one instant, three events, and a log nobody has touched. */
  lemma TwoRotationsAtOnce(place: Place, digest: Digest, t: Instant, first: Body, second: Body, third: Body)
    requires Sound(digest) && Splits(place) && place.suffix != "" && OnClock(t)
    ensures var a := NextLine(digest, first, "1", GENESIS);
            var b := NextLine(digest, second, "2", a.hash);
            var c := NextLine(digest, third, "3", b.hash);
            && Intact(digest, [a] + [b] + [c])
            && !Intact(digest, LogOf(place, map[SegmentName(place, t, 0) := [a], SegmentName(place, t, 1) := [b],
                                                LiveName(place) := [c]]))
  {
    var a := NextLine(digest, first, "1", GENESIS);
    var b := NextLine(digest, second, "2", a.hash);
    var c := NextLine(digest, third, "3", b.hash);
    NextFits(digest, [], first, "1");
    assert [] + [a] == [a];
    NextFits(digest, [a], second, "2");
    NextFits(digest, [a] + [b], third, "3");
    IntactPrefix(digest, [a] + [b], [c]);
    assert [] + [a] + [b] == [a] + [b];
    ChainedGrows([], a);
    ChainedGrows([], b);
    SwapDetected(digest, [], [a], [b], [c]);
    SwappedLog(place, t, a, b, c);
    assert [] + [b] + [a] + [c] == [b] + [a] + [c];
  }

  lemma SwappedLog(place: Place, t: Instant, a: Line, b: Line, c: Line)
    requires Splits(place) && place.suffix != "" && OnClock(t)
    ensures LogOf(place, map[SegmentName(place, t, 0) := [a], SegmentName(place, t, 1) := [b],
                             LiveName(place) := [c]]) == [b] + [a] + [c]
  {
    SegmentsMatch(place, t, 0);
    SegmentsMatch(place, t, 1);
    NumberedSortsFirst(place, t, 1);
    TwoSegments(place, SegmentName(place, t, 0), SegmentName(place, t, 1), a, b, c);
  }

  lemma TwoSegments(place: Place, plain: string, numbered: string, a: Line, b: Line, c: Line)
    requires Before(numbered, plain) && IsSegment(place, plain) && IsSegment(place, numbered) &&
             !IsSegment(place, LiveName(place))
    ensures LogOf(place, map[plain := [a], numbered := [b], LiveName(place) := [c]]) == [b] + [a] + [c]
  {
    var files: Files := map[plain := [a], numbered := [b], LiveName(place) := [c]];
    BeforeTotal(plain, numbered);
    assert Segments(place, files) == {numbered, plain};
    SortedPair(place, files, numbered, plain);
    JoinedConcat(files, [numbered], [plain]);
    JoinedOne(files, numbered);
    JoinedOne(files, plain);
  }

  lemma SortedPair(place: Place, files: Files, x: string, y: string)
    requires Before(x, y) && Segments(place, files) == {x, y}
    ensures Listing(place, files) == [x] + [y]
  {
    var listed := [x] + [y];
    assert listed[0] == x && listed[1] == y;
    assert Elements(listed) == {x, y};
    assert Ascending(Before, listed);
    ListingUnique(place, files, Listing(place, files), [x] + [y]);
  }
}
