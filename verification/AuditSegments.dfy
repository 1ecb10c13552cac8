/** The log's files as one chronological sequence of lines, and what a rotation does to it. */
module AuditSegments {
  import opened Ranking
  import opened Lexical
  import opened SegmentNames
  import opened AuditChain

  type Files = map<string, seq<Line>>

  ghost function Segments(place: Place, files: Files): set<string> {
    set name | name in files && IsSegment(place, name)
  }

  /** The rotated segments in the order `_rotated_paths` lists them. */
  ghost predicate IsListing(place: Place, files: Files, paths: seq<string>) {
    Ascending(Before, paths) && Elements(paths) == Segments(place, files)
  }

  function FileAt(files: Files, name: string): seq<Line> {
    if name in files then files[name] else []
  }

  /** The files of a list of names, one after the other. */
  function Joined(files: Files, names: seq<string>): seq<Line>
    decreases |names|
  {
    if names == [] then [] else Joined(files, names[..|names| - 1]) + FileAt(files, names[|names| - 1])
  }

  lemma {:induction false} JoinedConcat(files: Files, a: seq<string>, b: seq<string>)
    ensures Joined(files, a + b) == Joined(files, a) + Joined(files, b)
    decreases |b|
  {
    if b == [] {
      assert a + b == a;
    } else {
      assert (a + b)[..|a + b| - 1] == a + b[..|b| - 1];
      JoinedConcat(files, a, b[..|b| - 1]);
    }
  }

  lemma {:induction false} JoinedSame(files: Files, other: Files, names: seq<string>)
    requires forall i :: 0 <= i < |names| ==> FileAt(files, names[i]) == FileAt(other, names[i])
    ensures Joined(files, names) == Joined(other, names)
    decreases |names|
  {
    if names != [] {
      JoinedSame(files, other, names[..|names| - 1]);
    }
  }

  lemma ListingExists(place: Place, files: Files)
    ensures exists paths :: IsListing(place, files, paths)
  {
    var names := SomeOrder(Segments(place, files));
    BeforeIsTotal();
    SortAscends(Before, names);
    assert IsListing(place, files, Sort(Before, names));
  }

  lemma {:induction false} OrderExists(names: set<string>)
    ensures exists xs :: NoRepeats(xs) && Elements(xs) == names
  {
    if names == {} {
      assert NoRepeats<string>([]) && Elements<string>([]) == names;
    } else {
      var name :| name in names;
      OrderExists(names - {name});
      var xs :| NoRepeats(xs) && Elements(xs) == names - {name};
      assert name !in Elements(xs);
      assert Elements(xs + [name]) == Elements(xs) + {name};
      assert NoRepeats(xs + [name]);
    }
  }

  ghost function SomeOrder(names: set<string>): (xs: seq<string>)
    ensures NoRepeats(xs) && Elements(xs) == names
  {
    OrderExists(names);
    var xs :| NoRepeats(xs) && Elements(xs) == names;
    xs
  }

  lemma ListingUnique(place: Place, files: Files, a: seq<string>, b: seq<string>)
    requires IsListing(place, files, a) && IsListing(place, files, b)
    ensures a == b
  {
    BeforeIsTotal();
    AscendingUnique(Before, a, b);
  }

  ghost function Listing(place: Place, files: Files): (paths: seq<string>)
    ensures IsListing(place, files, paths)
  {
    ListingExists(place, files);
    var paths :| IsListing(place, files, paths);
    paths
  }

  /** The whole log as `verify` and a restart read it: rotated segments by name, then the live file. */
  ghost function LogOf(place: Place, files: Files): seq<Line> {
    Joined(files, Listing(place, files)) + FileAt(files, LiveName(place))
  }

  // ---- Rotation ------------------------------------------------------------------------------

  function Renamed(files: Files, from: string, to: string): Files
    requires from in files
  {
    (files - {from})[to := files[from]]
  }

  /** The live file renamed to the `n`-th name for the instant `t`. */
  function Rotated(place: Place, files: Files, t: Instant, n: nat): Files
    requires LiveName(place) in files
  {
    Renamed(files, LiveName(place), SegmentName(place, t, n))
  }

  ghost predicate FirstFree(place: Place, files: Files, t: Instant, n: nat) {
    && SegmentName(place, t, n) !in files
    && forall m: nat :: m < n ==> SegmentName(place, t, m) in files
  }

  ghost predicate Later(t: Instant, rotations: seq<Instant>) {
    forall i :: 0 <= i < |rotations| ==> Number(rotations[i]) < Number(t)
  }

  /** The plain names of the segments rotated out at the given instants. */
  function PlainNames(place: Place, rotations: seq<Instant>): (names: seq<string>)
    ensures |names| == |rotations|
    ensures forall i :: 0 <= i < |rotations| ==> names[i] == SegmentName(place, rotations[i], 0)
  {
    seq(|rotations|, i requires 0 <= i < |rotations| => SegmentName(place, rotations[i], 0))
  }

  ghost predicate EverLater(rotations: seq<Instant>) {
    && (forall i :: 0 <= i < |rotations| ==> OnClock(rotations[i]))
    && (forall i, j :: 0 <= i < j < |rotations| ==> Number(rotations[i]) < Number(rotations[j]))
  }

  /** The rotated segments are those of ever later instants. */
  ghost predicate Tracks(place: Place, files: Files, rotations: seq<Instant>) {
    Splits(place) && EverLater(rotations) && Elements(PlainNames(place, rotations)) == Segments(place, files)
  }

  /** Sorting the names restores the order of the rotations. */
  lemma NamesInOrder(place: Place, files: Files, rotations: seq<Instant>)
    requires Tracks(place, files, rotations)
    ensures Ascending(Before, PlainNames(place, rotations))
    ensures Listing(place, files) == PlainNames(place, rotations)
  {
    var names := PlainNames(place, rotations);
    forall i, j | 0 <= i < j < |names| ensures Before(names[i], names[j]) {
      SegmentsSort(place, rotations[i], 0, rotations[j], 0);
    }
    ListingUnique(place, files, Listing(place, files), names);
  }

  // The next lemmas are about any new name; only the order of the names matters to them.

  lemma RenamedSegments(place: Place, files: Files, live: string, name: string)
    requires live in files && !IsSegment(place, live) && IsSegment(place, name)
    ensures Segments(place, Renamed(files, live, name)) == Segments(place, files) + {name}
  {
  }

  lemma RenamedKeeps(files: Files, live: string, name: string, names: seq<string>)
    requires live in files && name !in names && live !in names
    ensures Joined(Renamed(files, live, name), names) == Joined(files, names)
  {
    var next := Renamed(files, live, name);
    forall i | 0 <= i < |names| ensures FileAt(next, names[i]) == FileAt(files, names[i]) {
      assert names[i] in names;
    }
    JoinedSame(next, files, names);
  }

  lemma JoinedOne(files: Files, name: string)
    ensures Joined(files, [name]) == FileAt(files, name)
  {
  }

  lemma JoinedAt(files: Files, live: string, name: string, names: seq<string>, i: nat)
    requires live in files && name !in names && live !in names && i <= |names|
    ensures Joined(Renamed(files, live, name), names[..i] + [name] + names[i..]) ==
            Joined(files, names[..i]) + files[live] + Joined(files, names[i..])
  {
    var next, a, b := Renamed(files, live, name), names[..i], names[i..];
    calc {
      Joined(next, a + [name] + b);
      { JoinedConcat(next, a + [name], b); }
      Joined(next, a + [name]) + Joined(next, b);
      { JoinedConcat(next, a, [name]); JoinedOne(next, name); }
      Joined(next, a) + files[live] + Joined(next, b);
      { RenamedKeeps(files, live, name, a); RenamedKeeps(files, live, name, b); }
      Joined(files, a) + files[live] + Joined(files, b);
    }
  }

  /** The listing after a rename: the new name in its place among the old ones. */
  lemma ListedAt(place: Place, files: Files, live: string, name: string, names: seq<string>, j: nat) returns (i: nat)
    requires live in files && !IsSegment(place, live) && IsSegment(place, name) && IsListing(place, files, names)
    requires name !in files && j < |names| && Before(name, names[j])
    ensures i < |names| && Listing(place, Renamed(files, live, name)) == names[..i] + [name] + names[i..]
  {
    var next := Renamed(files, live, name);
    BeforeIsTotal();
    RenamedSegments(place, files, live, name);
    assert name !in Elements(names);
    InsertAscends(Before, name, names);
    var listed := Insert(Before, name, names);
    assert Elements(listed) == Elements(names) + {name};
    ListingUnique(place, next, Listing(place, next), listed);
    i := InsertAt(Before, name, names, j);
  }

  // ---- The two kinds of rotation ---------------------------------------------------------------

  /** A later instant's plain name is free. */
  lemma LaterNameIsFree(place: Place, files: Files, rotations: seq<Instant>, t: Instant)
    requires Tracks(place, files, rotations) && OnClock(t) && Later(t, rotations)
    ensures SegmentName(place, t, 0) !in files
  {
    SegmentsMatch(place, t, 0);
    var names, name := PlainNames(place, rotations), SegmentName(place, t, 0);
    if name in files {
      assert name in Elements(names);
      var i :| 0 <= i < |rotations| && names[i] == name;
      NamesAreDistinct(place, t, 0, rotations[i], 0);
    }
  }

  lemma NotAmong(place: Place, files: Files, rotations: seq<Instant>, name: string)
    requires Tracks(place, files, rotations) && name !in files
    ensures name !in PlainNames(place, rotations) && LiveName(place) !in PlainNames(place, rotations)
  {
    var names := PlainNames(place, rotations);
    SegmentsMatch(place, Instant(0, 0, 0, 0, 0, 0, 0), 0);
    assert forall other :: other in names ==> other in Elements(names);
  }

  lemma NamesGrow(place: Place, rotations: seq<Instant>, t: Instant)
    ensures PlainNames(place, rotations + [t]) == PlainNames(place, rotations) + [SegmentName(place, t, 0)]
    ensures Elements(PlainNames(place, rotations + [t])) == Elements(PlainNames(place, rotations)) +
            {SegmentName(place, t, 0)}
  {
  }

  lemma EverLaterGrows(rotations: seq<Instant>, t: Instant)
    requires EverLater(rotations) && OnClock(t) && Later(t, rotations)
    ensures EverLater(rotations + [t])
  {
  }

  lemma TracksLater(place: Place, files: Files, rotations: seq<Instant>, t: Instant)
    requires Tracks(place, files, rotations) && LiveName(place) in files && OnClock(t) && Later(t, rotations)
    ensures Tracks(place, Rotated(place, files, t, 0), rotations + [t])
  {
    SegmentsMatch(place, t, 0);
    RenamedSegments(place, files, LiveName(place), SegmentName(place, t, 0));
    NamesGrow(place, rotations, t);
    EverLaterGrows(rotations, t);
  }

  lemma JoinedLast(files: Files, live: string, name: string, names: seq<string>)
    requires live in files && name !in names && live !in names
    ensures Joined(Renamed(files, live, name), names + [name]) == Joined(files, names) + files[live]
  {
    JoinedConcat(Renamed(files, live, name), names, [name]);
    JoinedOne(Renamed(files, live, name), name);
    RenamedKeeps(files, live, name, names);
  }

  /** A rotation at a later instant leaves the log's lines as they were. */
  lemma RotateLater(place: Place, files: Files, rotations: seq<Instant>, t: Instant, n: nat)
    requires Tracks(place, files, rotations) && LiveName(place) in files
    requires OnClock(t) && Later(t, rotations) && FirstFree(place, files, t, n)
    ensures n == 0 && Tracks(place, Rotated(place, files, t, n), rotations + [t])
    ensures Joined(Rotated(place, files, t, n), PlainNames(place, rotations + [t])) == LogOf(place, files)
  {
    LaterNameIsFree(place, files, rotations, t);
    assert n == 0;
    TracksLater(place, files, rotations, t);
    var names, name := PlainNames(place, rotations), SegmentName(place, t, 0);
    NamesGrow(place, rotations, t);
    NamesInOrder(place, files, rotations);
    NotAmong(place, files, rotations, name);
    JoinedLast(files, LiveName(place), name, names);
  }

  /**
  The name of a rotation at `t` sorts before an older one: at an earlier instant, or at the same one, where
  the numbered name stands first if the path has a suffix.
  */
  ghost predicate TooEarly(place: Place, t: Instant, rotations: seq<Instant>) {
    exists i :: 0 <= i < |rotations| && BeforeRotation(place, t, rotations[i])
  }

  predicate BeforeRotation(place: Place, t: Instant, u: Instant) {
    Number(t) < Number(u) || (Number(t) == Number(u) && place.suffix != "")
  }

  /** A rotation that comes too early puts the live file in front of an older segment. */
  lemma RotateTooEarly(place: Place, files: Files, rotations: seq<Instant>, t: Instant, n: nat) returns (i: nat)
    requires Tracks(place, files, rotations) && LiveName(place) in files
    requires OnClock(t) && TooEarly(place, t, rotations) && FirstFree(place, files, t, n)
    ensures i < |rotations|
    ensures var names, next := PlainNames(place, rotations), Rotated(place, files, t, n);
            Joined(next, Listing(place, next)) ==
            Joined(files, names[..i]) + files[LiveName(place)] + Joined(files, names[i..])
  {
    var names, live, name := PlainNames(place, rotations), LiveName(place), SegmentName(place, t, n);
    SegmentsMatch(place, t, n);
    NamesInOrder(place, files, rotations);
    var j := NotLast(place, files, rotations, t, n);
    i := ListedAt(place, files, live, name, names, j);
    NotAmong(place, files, rotations, name);
    JoinedAt(files, live, name, names, i);
  }

  /** Some older segment's name sorts after the new one. */
  lemma NotLast(place: Place, files: Files, rotations: seq<Instant>, t: Instant, n: nat) returns (j: nat)
    requires Tracks(place, files, rotations)
    requires OnClock(t) && TooEarly(place, t, rotations) && FirstFree(place, files, t, n)
    ensures j < |rotations| && Before(SegmentName(place, t, n), PlainNames(place, rotations)[j])
  {
    j :| 0 <= j < |rotations| && BeforeRotation(place, t, rotations[j]);
    if Number(t) < Number(rotations[j]) {
      SegmentsSort(place, t, n, rotations[j], 0);
    } else {
      NumberIsInjective(t, rotations[j]);
      assert PlainNames(place, rotations)[j] in Elements(PlainNames(place, rotations));
      NumberedSortsFirst(place, t, n);
    }
  }

  /** A rotation whose name sorts last keeps the lines of the log. */
  lemma RotateLast(place: Place, files: Files, t: Instant, n: nat)
    requires LiveName(place) in files && SegmentName(place, t, n) !in files
    requires forall name :: name in Listing(place, files) ==> Before(name, SegmentName(place, t, n))
    ensures Listing(place, Rotated(place, files, t, n)) == Listing(place, files) + [SegmentName(place, t, n)]
    ensures LogOf(place, Rotated(place, files, t, n)) == LogOf(place, files)
  {
    var names, live, name := Listing(place, files), LiveName(place), SegmentName(place, t, n);
    var next := Rotated(place, files, t, n);
    SegmentsMatch(place, t, n);
    RenamedSegments(place, files, live, name);
    AscendingGrows(names, name);
    ListingUnique(place, next, Listing(place, next), names + [name]);
    assert forall other :: other in names ==> other in Elements(names);
    JoinedLast(files, live, name, names);
    assert Joined(next, names + [name]) + [] == Joined(next, names + [name]);
  }

  lemma AscendingGrows(names: seq<string>, name: string)
    requires Ascending(Before, names) && forall other :: other in names ==> Before(other, name)
    ensures Ascending(Before, names + [name]) && Elements(names + [name]) == Elements(names) + {name}
  {
  }

  /** Without a suffix a second rotation at the last instant keeps them too. */
  lemma RotateAgain(place: Place, files: Files, rotations: seq<Instant>, t: Instant, n: nat)
    requires Tracks(place, files, rotations) && LiveName(place) in files
    requires OnClock(t) && FirstFree(place, files, t, n) && !Later(t, rotations) && !TooEarly(place, t, rotations)
    ensures LogOf(place, Rotated(place, files, t, n)) == LogOf(place, files)
  {
    NamesInOrder(place, files, rotations);
    PlainIsTaken(place, files, rotations, t);
    forall i | 0 <= i < |rotations| ensures Before(SegmentName(place, rotations[i], 0), SegmentName(place, t, n)) {
      assert !BeforeRotation(place, t, rotations[i]);
      PlainBefore(place, rotations[i], t, n);
    }
    RotateLast(place, files, t, n);
  }

  lemma PlainIsTaken(place: Place, files: Files, rotations: seq<Instant>, t: Instant)
    requires Tracks(place, files, rotations) && OnClock(t) && !Later(t, rotations) && !TooEarly(place, t, rotations)
    ensures SegmentName(place, t, 0) in files
  {
    var i :| 0 <= i < |rotations| && Number(t) <= Number(rotations[i]);
    assert !BeforeRotation(place, t, rotations[i]);
    NumberIsInjective(t, rotations[i]);
    assert PlainNames(place, rotations)[i] in Elements(PlainNames(place, rotations));
  }

  lemma PlainBefore(place: Place, u: Instant, t: Instant, n: nat)
    requires OnClock(u) && OnClock(t) && n > 0 && !BeforeRotation(place, t, u)
    ensures Before(SegmentName(place, u, 0), SegmentName(place, t, n))
  {
    if Number(u) == Number(t) {
      NumberIsInjective(u, t);
      PlainSortsFirst(place, t, n);
    } else {
      SegmentsSort(place, u, 0, t, n);
    }
  }

  lemma {:induction false} InsertAt<T(!new)>(less: (T, T) -> bool, x: T, xs: seq<T>, j: nat) returns (i: nat)
    requires j < |xs| && less(x, xs[j])
    ensures i < |xs| && Insert(less, x, xs) == xs[..i] + [x] + xs[i..]
  {
    if less(x, xs[0]) {
      i := 0;
    } else {
      var k := InsertAt(less, x, xs[1..], j - 1);
      i := k + 1;
      assert xs[..i] == [xs[0]] + xs[1..][..k] && xs[i..] == xs[1..][k..];
    }
  }
}
