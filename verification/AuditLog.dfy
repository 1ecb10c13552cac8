/** The audit log object (src/data_olympus/audit_log.py): append, rotate, restart, verify, read back. */
module AuditFiles {
  import opened Common
  import opened Ranking
  import opened Lexical
  import opened SegmentNames
  import opened AuditChain
  import opened AuditSegments
  import opened AuditScan

  /** The line `append` writes: the caller's event under a new identifier, linked to `prev` and hashed. */
  function NextLine(digest: Digest, event: Body, eventId: string, prev: string): Line {
    var body := event.(eventId := eventId, prevHash := Some(prev));
    Event(body, digest(body))
  }

  /** The caller's event, under its new identifier, linked to `prev` and hashed; no other field is touched. */
  ghost predicate Records(digest: Digest, line: Line, event: Body, eventId: string, prev: string) {
    && line.Event? && line.hash == digest(line.body)
    && line.body.eventId == eventId && line.body.prevHash == Some(prev)
    && line.body.ts == event.ts && line.body.agent == event.agent && line.body.status == event.status
    && line.body.rest == event.rest
  }

  function Written(files: Files, name: string, line: Line): Files {
    files[name := FileAt(files, name) + [line]]
  }

  /** The files after a rotation, if there is one. */
  function AfterRotation(place: Place, files: Files, t: Instant, n: nat, rotates: bool): Files
    requires rotates ==> LiveName(place) in files
  {
    if rotates then Rotated(place, files, t, n) else files
  }

  /** The live file ends with what was written to it, and so does the log. */
  lemma EndsWritten(place: Place, files: Files, line: Line)
    ensures var next := Written(files, LiveName(place), line);
            && next[LiveName(place)] != [] && next[LiveName(place)][|next[LiveName(place)]| - 1] == line
            && LogOf(place, next) != [] && LogOf(place, next)[|LogOf(place, next)| - 1] == line
  {
  }

  // ---- States of the log -----------------------------------------------------------------------

  /** The log is intact, its rotations are in order and `last` is the hash the next event must link to. */
  ghost predicate Healthy(place: Place, digest: Digest, files: Files, last: string, rotations: seq<Instant>) {
    && Sound(digest) && Tracks(place, files, rotations)
    && Intact(digest, LogOf(place, files)) && last == LastHash(LogOf(place, files))
  }

  /** Every file holds a hashed event, as in a log that was chained from its beginning. */
  ghost predicate AllChained(files: Files) {
    forall name :: name in files ==> Chained(files[name]) != []
  }

  lemma ListingSame(place: Place, files: Files, line: Line)
    ensures var next := Written(files, LiveName(place), line);
            && Segments(place, next) == Segments(place, files)
            && Listing(place, next) == Listing(place, files)
            && Joined(next, Listing(place, next)) == Joined(files, Listing(place, files))
  {
    var next := Written(files, LiveName(place), line);
    var paths := Listing(place, files);
    SegmentsMatch(place, Instant(0, 0, 0, 0, 0, 0, 0), 0);
    assert Segments(place, next) == Segments(place, files);
    ListingUnique(place, next, Listing(place, next), paths);
    forall i | 0 <= i < |paths| ensures FileAt(next, paths[i]) == FileAt(files, paths[i]) {
      assert paths[i] in Elements(paths);
    }
    JoinedSame(next, files, paths);
  }

  /** Writing to the live file adds the line at the end of the log. */
  lemma WriteExtends(place: Place, files: Files, line: Line)
    ensures LogOf(place, Written(files, LiveName(place), line)) == LogOf(place, files) + [line]
  {
    ListingSame(place, files, line);
  }

  lemma NextFits(digest: Digest, lines: seq<Line>, event: Body, eventId: string)
    requires Sound(digest) && Intact(digest, lines)
    ensures var line := NextLine(digest, event, eventId, LastHash(lines));
            Intact(digest, lines + [line]) && LastHash(lines + [line]) == line.hash
  {
  }

  lemma WriteKeepsHealthy(place: Place, digest: Digest, files: Files, last: string, rotations: seq<Instant>,
                          event: Body, eventId: string)
    requires Healthy(place, digest, files, last, rotations)
    ensures var line := NextLine(digest, event, eventId, last);
            Healthy(place, digest, Written(files, LiveName(place), line), line.hash, rotations)
  {
    var line := NextLine(digest, event, eventId, last);
    WriteExtends(place, files, line);
    ListingSame(place, files, line);
    NextFits(digest, LogOf(place, files), event, eventId);
  }

  lemma RotationKeepsLog(place: Place, files: Files, rotations: seq<Instant>, t: Instant, n: nat)
    requires Tracks(place, files, rotations) && LiveName(place) in files
    requires OnClock(t) && Later(t, rotations) && FirstFree(place, files, t, n)
    ensures LogOf(place, Rotated(place, files, t, n)) == LogOf(place, files)
  {
    var next := Rotated(place, files, t, n);
    RotateLater(place, files, rotations, t, n);
    NamesInOrder(place, next, rotations + [t]);
    LiveIsGone(place, files, t, n);
    assert LogOf(place, next) == Joined(next, PlainNames(place, rotations + [t])) + [];
  }

  /** A rotation at a later instant keeps the log healthy, with the same lines. */
  lemma RotationKeepsHealthy(place: Place, digest: Digest, files: Files, last: string, rotations: seq<Instant>,
                             t: Instant, n: nat)
    requires Healthy(place, digest, files, last, rotations) && LiveName(place) in files
    requires OnClock(t) && Later(t, rotations) && FirstFree(place, files, t, n)
    ensures Healthy(place, digest, Rotated(place, files, t, n), last, rotations + [t])
    ensures LogOf(place, Rotated(place, files, t, n)) == LogOf(place, files)
  {
    RotationKeepsLog(place, files, rotations, t, n);
    RotateLater(place, files, rotations, t, n);
  }

  lemma LiveIsGone(place: Place, files: Files, t: Instant, n: nat)
    requires LiveName(place) in files
    ensures FileAt(Rotated(place, files, t, n), LiveName(place)) == []
  {
  }

  lemma {:induction false} JoinedIsChained(files: Files, names: seq<string>)
    requires AllChained(files) && names != [] && forall name :: name in names ==> name in files
    ensures Chained(Joined(files, names)) != []
  {
    var init, name := names[..|names| - 1], names[|names| - 1];
    ChainedConcat(Joined(files, init), FileAt(files, name));
    assert name in names;
  }

  lemma JoinedSplit(files: Files, names: seq<string>, i: nat)
    requires i <= |names|
    ensures Joined(files, names) == Joined(files, names[..i]) + Joined(files, names[i..])
  {
    JoinedConcat(files, names[..i], names[i..]);
    assert names == names[..i] + names[i..];
  }

  lemma NoLiveLines(place: Place, files: Files, lines: seq<Line>)
    requires Joined(files, Listing(place, files)) == lines && FileAt(files, LiveName(place)) == []
    ensures LogOf(place, files) == lines
  {
  }

  /** The log before and after an append that rotates too early: the live file has moved down. */
  lemma EarlyRotationMoves(place: Place, files: Files, rotations: seq<Instant>, t: Instant, n: nat, line: Line)
    returns (a: seq<Line>, b: seq<Line>)
    requires Tracks(place, files, rotations) && LiveName(place) in files && AllChained(files)
    requires OnClock(t) && TooEarly(place, t, rotations) && FirstFree(place, files, t, n)
    ensures Chained(b) != [] && LogOf(place, files) == a + b + files[LiveName(place)]
    ensures LogOf(place, Written(Rotated(place, files, t, n), LiveName(place), line)) ==
            a + files[LiveName(place)] + b + [line]
  {
    var names := PlainNames(place, rotations);
    var i := RotateTooEarly(place, files, rotations, t, n);
    NamesInOrder(place, files, rotations);
    JoinedSplit(files, names, i);
    SegmentsAreChained(place, files, names, i);
    LiveIsGone(place, files, t, n);
    a, b := Joined(files, names[..i]), Joined(files, names[i..]);
    NoLiveLines(place, Rotated(place, files, t, n), a + files[LiveName(place)] + b);
    WriteExtends(place, Rotated(place, files, t, n), line);
  }

  lemma SegmentsAreChained(place: Place, files: Files, names: seq<string>, i: nat)
    requires Elements(names) == Segments(place, files) && AllChained(files) && i < |names|
    ensures Chained(Joined(files, names[i..])) != []
  {
    forall name | name in names[i..] ensures name in files {
      assert name in Elements(names);
    }
    JoinedIsChained(files, names[i..]);
  }

  /** A rotation that comes too early breaks the chain with the next event written. */
  lemma EarlyRotationBreaks(place: Place, digest: Digest, files: Files, last: string, rotations: seq<Instant>,
                            t: Instant, n: nat, line: Line)
    requires Healthy(place, digest, files, last, rotations) && LiveName(place) in files && AllChained(files)
    requires OnClock(t) && TooEarly(place, t, rotations) && FirstFree(place, files, t, n)
    ensures !Intact(digest, LogOf(place, Written(Rotated(place, files, t, n), LiveName(place), line)))
  {
    var a, b := EarlyRotationMoves(place, files, rotations, t, n, line);
    SwapDetected(digest, a, b, files[LiveName(place)], [line]);
  }

  function RotationsAfter(rotations: seq<Instant>, t: Instant, rotates: bool): seq<Instant> {
    if rotates then rotations + [t] else rotations
  }

  /** What an append does to a healthy log. */
  ghost predicate AppendHolds(place: Place, digest: Digest, files: Files, last: string, rotations: seq<Instant>,
                              t: Instant, n: nat, rotates: bool, line: Line)
    requires line.Event? && (rotates ==> LiveName(place) in files)
  {
    var next := Written(AfterRotation(place, files, t, n, rotates), LiveName(place), line);
    && (Healthy(place, digest, files, last, rotations) && (rotates ==> Later(t, rotations)) ==>
          && Healthy(place, digest, next, line.hash, RotationsAfter(rotations, t, rotates))
          && LogOf(place, next) == LogOf(place, files) + [line])
    && (Healthy(place, digest, files, last, rotations) && AllChained(files) ==>
          (Intact(digest, LogOf(place, next)) <==> (rotates ==> !TooEarly(place, t, rotations))))
  }

  lemma AppendMeans(place: Place, digest: Digest, files: Files, last: string, rotations: seq<Instant>, t: Instant,
                    n: nat, rotates: bool, event: Body, eventId: string)
    requires OnClock(t) && (rotates ==> LiveName(place) in files && FirstFree(place, files, t, n))
    ensures AppendHolds(place, digest, files, last, rotations, t, n, rotates, NextLine(digest, event, eventId, last))
  {
    var line, middle := NextLine(digest, event, eventId, last), AfterRotation(place, files, t, n, rotates);
    if Healthy(place, digest, files, last, rotations) {
      if !rotates {
        WriteKeepsHealthy(place, digest, files, last, rotations, event, eventId);
        WriteExtends(place, files, line);
      } else if Later(t, rotations) {
        RotationKeepsHealthy(place, digest, files, last, rotations, t, n);
        WriteKeepsHealthy(place, digest, middle, last, rotations + [t], event, eventId);
        WriteExtends(place, middle, line);
      } else if !TooEarly(place, t, rotations) {
        RotateAgain(place, files, rotations, t, n);
        WriteExtends(place, middle, line);
        NextFits(digest, LogOf(place, files), event, eventId);
      } else if AllChained(files) {
        EarlyRotationBreaks(place, digest, files, last, rotations, t, n, line);
      }
    }
  }

  // ---- Candidate names ---------------------------------------------------------------------------

  /** The first `n` names tried for an instant. */
  ghost function Tried(place: Place, t: Instant, n: nat): set<string> {
    if n == 0 then {} else Tried(place, t, n - 1) + {SegmentName(place, t, n - 1)}
  }

  /** They all differ, and the next one is new. */
  lemma {:induction false} TriedDiffer(place: Place, t: Instant, n: nat, m: nat)
    requires OnClock(t) && n <= m
    ensures |Tried(place, t, n)| == n && SegmentName(place, t, m) !in Tried(place, t, n)
  {
    if n > 0 {
      TriedDiffer(place, t, n - 1, n - 1);
      TriedDiffer(place, t, n - 1, m);
      if SegmentName(place, t, m) == SegmentName(place, t, n - 1) {
        NamesAreDistinct(place, t, m, t, n - 1);
      }
    }
  }

  lemma {:induction false} TriedAre(place: Place, t: Instant, n: nat)
    ensures forall m: nat :: m < n ==> SegmentName(place, t, m) in Tried(place, t, n)
  {
    if n > 0 {
      TriedAre(place, t, n - 1);
    }
  }

  // ---- The object --------------------------------------------------------------------------------

  class AuditLog {
    const place: Place
    const digest: Digest
    const maxBytes: nat
    const size: seq<Line> -> nat
    var files: Files
    var lastHash: string
    ghost var rotations: seq<Instant>

    ghost function Log(): seq<Line>
      reads this
    {
      LogOf(place, files)
    }

    ghost predicate Good()
      reads this
    {
      Healthy(place, digest, files, lastHash, rotations)
    }

    /** `_maybe_rotate_locked` goes through with a rotation. */
    predicate Rotates()
      reads this
    {
      maxBytes > 0 && LiveName(place) in files && size(files[LiveName(place)]) >= maxBytes
    }

    /** `__init__`: open whatever files there are and load the end of their chain. */
    constructor (place: Place, digest: Digest, maxBytes: int, size: seq<Line> -> nat, files: Files,
                 ghost rotations: seq<Instant>)
      ensures this.place == place && this.digest == digest && this.size == size
      ensures this.maxBytes == if maxBytes > 0 then maxBytes else 0
      ensures this.files == files && this.rotations == rotations && lastHash == LastHash(Log())
    {
      this.place, this.digest, this.size := place, digest, size;
      this.maxBytes := if maxBytes > 0 then maxBytes else 0;
      this.files, this.rotations, this.lastHash := files, rotations, GENESIS;
      new;
      lastHash := LoadLastHash();
    }

    /** `_rotated_paths`: the segments that exist, sorted by name. */
    method RotatedPaths() returns (paths: seq<string>)
      ensures paths == Listing(place, files)
    {
      var names := ListOf(set name | name in files && IsSegment(place, name));
      BeforeIsTotal();
      SortAscends(Before, names);
      paths := Sort(Before, names);
      ListingUnique(place, files, paths, Listing(place, files));
    }

    /** All files in reading order. */
    method Paths() returns (paths: seq<string>)
      ensures Joined(files, paths) == Log()
    {
      var rotated := RotatedPaths();
      paths := rotated + [LiveName(place)];
      JoinedConcat(files, rotated, [LiveName(place)]);
      JoinedOne(files, LiveName(place));
    }

    /** `_load_last_hash`: the last hash over all segments. */
    method LoadLastHash() returns (last: string)
      ensures last == LastHash(Log())
    {
      var paths := Paths();
      last := GENESIS;
      for k := 0 to |paths|
        invariant last == LastHash(Joined(files, paths[..k]))
      {
        JoinedSteps(files, paths, k);
        if paths[k] in files {
          last := ScanHashes(files[paths[k]], last, Joined(files, paths[..k]));
        }
      }
      assert paths[..|paths|] == paths;
    }

    method ScanHashes(lines: seq<Line>, before: string, ghost done: seq<Line>) returns (last: string)
      requires before == LastHash(done)
      ensures last == LastHash(done + lines)
    {
      last := before;
      assert done + lines[..0] == done;
      for j := 0 to |lines|
        invariant last == LastHash(done + lines[..j])
      {
        assert done + lines[..j + 1] == (done + lines[..j]) + [lines[j]];
        LastHashGrows(done + lines[..j], lines[j]);
        if Hashed(lines[j]) {
          last := lines[j].hash;
        }
      }
      assert lines[..|lines|] == lines;
    }

    /** `_rotated_path_for`: the first free name for the instant; the search always ends. */
    method RotatedPathFor(t: Instant) returns (candidate: string, ghost n: nat)
      requires OnClock(t)
      ensures candidate == SegmentName(place, t, n) && FirstFree(place, files, t, n)
      ensures candidate !in files && IsSegment(place, candidate)
    {
      candidate, n := SegmentName(place, t, 0), 0;
      var next := 1;
      while candidate in files
        invariant next == n + 1 && candidate == SegmentName(place, t, n)
        invariant Tried(place, t, n) <= files.Keys && |Tried(place, t, n)| == n
        decreases |files.Keys| - n
      {
        TriedDiffer(place, t, n, n);
        SmallerSet(Tried(place, t, n + 1), files.Keys);
        candidate := SegmentName(place, t, next);
        n, next := next, next + 1;
      }
      TriedAre(place, t, n);
      SegmentsMatch(place, t, n);
    }

    /** `_maybe_rotate_locked`. */
    method MaybeRotate(t: Instant) returns (ghost n: nat)
      requires OnClock(t)
      modifies this
      ensures lastHash == old(lastHash)
      ensures old(Rotates()) ==> FirstFree(place, old(files), t, n)
      ensures files == AfterRotation(place, old(files), t, n, old(Rotates()))
      ensures rotations == RotationsAfter(old(rotations), t, old(Rotates()))
    {
      n := 0;
      if Rotates() {
        var name;
        name, n := RotatedPathFor(t);
        files := Renamed(files, LiveName(place), name);
        rotations := rotations + [t];
      }
    }

    /**
    `append`. From a good state the log gains exactly the new line and stays good, provided that a
    rotation, if one is due, comes at a later instant than all before it; and when every file holds a
    hashed event, `verify` accepts the result if and only if a due rotation does not come too early.
    */
    method Append(event: Body, eventId: string, t: Instant) returns (ghost n: nat)
      requires OnClock(t)
      modifies this
      ensures old(Rotates()) ==> FirstFree(place, old(files), t, n)
      ensures var line := NextLine(digest, event, eventId, old(lastHash));
              && lastHash == line.hash
              && files == Written(AfterRotation(place, old(files), t, n, old(Rotates())), LiveName(place), line)
      ensures Log() != [] && Records(digest, Log()[|Log()| - 1], event, eventId, old(lastHash))
      ensures lastHash == Log()[|Log()| - 1].hash
      ensures rotations == RotationsAfter(old(rotations), t, old(Rotates()))
      ensures old(Good() && (Rotates() ==> Later(t, rotations))) ==>
                Good() && Log() == old(Log()) + [NextLine(digest, event, eventId, old(lastHash))]
      ensures old(Good() && AllChained(files)) ==>
                (Intact(digest, Log()) <==> old(Rotates() ==> !TooEarly(place, t, rotations)))
    {
      ghost var before, rotates, earlier := files, Rotates(), rotations;
      n := MaybeRotate(t);
      AppendMeans(place, digest, before, lastHash, earlier, t, n, rotates, event, eventId);
      var line := NextLine(digest, event, eventId, lastHash);
      EndsWritten(place, files, line);
      files := Written(files, LiveName(place), line);
      lastHash := line.hash;
    }

    /** An event that has just been appended is the first that a query for it yields. */
    method AppendThenQuery(event: Body, eventId: string, t: Instant, q: Query, includeRotated: bool, limit: Option<int>)
      returns (events: seq<Line>)
      requires OnClock(t) && Asks(q, event) && (limit.Some? ==> limit.value > 0)
      modifies this
      ensures events != [] && Records(digest, events[0], event, eventId, old(lastHash))
    {
      ghost var n := Append(event, eventId, t);
      ghost var live := files[LiveName(place)];
      events := IterFiltered(q, includeRotated, limit);
      RecordedIsWanted(digest, q, Log()[|Log()| - 1], event, eventId, old(lastHash));
      ScanFirst(q, if includeRotated then Log() else live, limit);
    }

    /** A new process over the same files. */
    method Restart()
      modifies this
      ensures files == old(files) && rotations == old(rotations) && lastHash == LastHash(Log())
      ensures old(Good()) ==> Good() && lastHash == old(lastHash)
    {
      lastHash := LoadLastHash();
    }

    /**
    `verify`: accepts exactly the intact logs, and otherwise reports the first line that does not fit,
    counted over all segments.
    */
    method Verify() returns (ok: bool, index: int)
      ensures ok <==> Intact(digest, Log())
      ensures if ok then index == -1 else FirstOffence(digest, Log(), index)
    {
      var paths := Paths();
      var prev, seenHashed, globalIndex := GENESIS, false, 0;
      for k := 0 to |paths|
        invariant Reached(digest, Joined(files, paths[..k]), prev, seenHashed, globalIndex)
      {
        JoinedSteps(files, paths, k);
        if paths[k] in files {
          ok, prev, seenHashed, globalIndex :=
            VerifyFile(files[paths[k]], prev, seenHashed, globalIndex, Joined(files, paths[..k]));
          if !ok {
            OffenceStays(digest, Joined(files, paths[..k + 1]), Joined(files, paths[k + 1..]), globalIndex);
            return false, globalIndex;
          }
        }
      }
      assert paths[..|paths|] == paths;
      return true, -1;
    }

    /** The lines of one file; on failure `end` is the offending line's index. */
    method VerifyFile(raw: seq<Line>, prev: string, seenHashed: bool, globalIndex: nat, ghost done: seq<Line>)
      returns (ok: bool, next: string, seen: bool, end: nat)
      requires Reached(digest, done, prev, seenHashed, globalIndex)
      ensures if ok then Reached(digest, done + raw, next, seen, end) else FirstOffence(digest, done + raw, end)
    {
      ok, next, seen, end := true, prev, seenHashed, globalIndex;
      ghost var read := done;
      assert done + raw[..0] == done;
      for j := 0 to |raw|
        invariant read == done + raw[..j] && Reached(digest, read, next, seen, end)
      {
        Snoc(done, raw, j);
        ok, next, seen := CheckLine(raw[j], next, seen, end, read);
        if !ok {
          MisfitIn(digest, done, raw, j);
          return;
        }
        read, end := read + [raw[j]], end + 1;
      }
      assert raw[..|raw|] == raw;
      ok := true;
    }

    /** One pass through the loop of `verify`. */
    method CheckLine(line: Line, prev: string, seenHashed: bool, i: nat, ghost before: seq<Line>)
      returns (ok: bool, next: string, seen: bool)
      requires Reached(digest, before, prev, seenHashed, i)
      ensures ok <==> Fits(digest, before, line)
      ensures ok ==> Reached(digest, before + [line], next, seen, i + 1)
    {
      IntactGrows(digest, before, line);
      assert (before + [line])[..|before|] == before;
      ok, next, seen := true, prev, seenHashed;
      if line.Blank? {
        return;
      }
      if line.Garbage? {
        return false, next, seen;
      }
      if !Hashed(line) {
        ok := !seenHashed;
        return;
      }
      if line.body.prevHash != Some(prev) {
        return false, next, seen;
      }
      if digest(line.body) != line.hash {
        return false, next, seen;
      }
      next, seen := line.hash, true;
    }

    /** `iter_filtered`: one bounded scan from the end, stopping early at the first event that is too old. */
    method IterFiltered(q: Query, includeRotated: bool, maxScanEvents: Option<int>) returns (events: seq<Line>)
      ensures var lines := if includeRotated then Log() else FileAt(files, LiveName(place));
              && events == Scan(q, lines, maxScanEvents)
              && (InTimeOrder(q, lines) ==> events == NewestFirst(q, Recent(lines, maxScanEvents)))
              && (InTimeOrder(q, lines) && maxScanEvents.None? ==> events == NewestFirst(q, lines))
    {
      var paths := [LiveName(place)];
      JoinedOne(files, LiveName(place));
      if includeRotated {
        paths := Paths();
      }
      events := ScanFiles(q, files, paths, maxScanEvents);
      if InTimeOrder(q, Joined(files, paths)) {
        ScanInTimeOrder(q, Joined(files, paths), maxScanEvents);
        UnlimitedSeesAll(q, Joined(files, paths));
      }
    }

    /** The files of `paths` from the last to the first. */
    static method ScanFiles(q: Query, files: Files, paths: seq<string>, limit: Option<int>) returns (events: seq<Line>)
      ensures events == Scan(q, Joined(files, paths), limit)
    {
      events := [];
      ghost var all := Scan(q, Joined(files, paths), limit);
      var left, k := limit, |paths|;
      assert paths[..k] == paths;
      while k > 0
        invariant 0 <= k <= |paths| && Pending(q, all, events, Joined(files, paths[..k]), left)
      {
        k := k - 1;
        JoinedSteps(files, paths, k);
        ghost var older, before := Joined(files, paths[..k]), left;
        var lines := FileAt(files, paths[k]);
        var stopped, found;
        stopped, found, left := ScanFile(q, lines, left, older);
        PendingStep(q, all, events, older, lines, before, stopped, found, left);
        events := events + found;
        if stopped {
          return;
        }
      }
      PendingNothing(q, all, events, files, paths[..k], left);
    }

    /** One file of the scan, from its end; `left` is how many lines may still be examined. */
    static method ScanFile(q: Query, lines: seq<Line>, before: Option<int>, ghost older: seq<Line>)
      returns (stopped: bool, found: seq<Line>, left: Option<int>)
      ensures Scan(q, older + lines, before) == found + if stopped then [] else Scan(q, older, left)
    {
      found, left := [], before;
      ghost var all := Scan(q, older + lines, before);
      var j := |lines|;
      assert older + lines[..j] == older + lines;
      while j > 0
        invariant 0 <= j <= |lines| && Pending(q, all, found, older + lines[..j], left)
      {
        j := j - 1;
        assert older + lines[..j + 1] == (older + lines[..j]) + [lines[j]];
        var one;
        ghost var limit := left;
        stopped, one, left := ScanLine(q, lines[j], left, older + lines[..j]);
        PendingStep(q, all, found, older + lines[..j], [lines[j]], limit, stopped, one, left);
        found := found + one;
        if stopped {
          return;
        }
      }
      assert older + lines[..0] == older;
      stopped := false;
    }

    /** One line of the scan. */
    static method ScanLine(q: Query, line: Line, before: Option<int>, ghost older: seq<Line>)
      returns (stopped: bool, found: seq<Line>, left: Option<int>)
      ensures Scan(q, older + [line], before) == found + if stopped then [] else Scan(q, older, left)
    {
      stopped, found, left := false, [], before;
      if left.Some? && left.value <= 0 {
        return true, found, left;
      }
      assert (older + [line])[..|older|] == older;
      if line.Blank? {
        return;
      }
      left := Less(left);
      var keep;
      stopped, keep := Examine(q, line);
      if keep {
        found := [line];
      }
    }

    /** Does the line end the scan, and is it yielded? */
    static method Examine(q: Query, line: Line) returns (stop: bool, keep: bool)
      requires !line.Blank?
      ensures stop <==> TooOld(q, line)
      ensures keep <==> Wanted(q, line)
    {
      if line.Garbage? {
        return false, false;
      }
      if line.Scalar? {
        return false, q.since.None? && q.agent.None? && q.status.None?;
      }
      if q.since.Some? && line.body.ts.NotNumber? {
        return false, false;
      }
      if q.since.Some? && (if line.body.ts.Missing? then 0.0 else q.number(line.body.ts.numeral)) < q.since.value {
        return true, false;
      }
      if q.agent.Some? && line.body.agent != q.agent {
        return false, false;
      }
      if q.status.Some? && line.body.status != q.status {
        return false, false;
      }
      return false, true;
    }
  }

  /** The query asks for events like this one: not too old, and of the agent and status named, if any. */
  ghost predicate Asks(q: Query, event: Body) {
    && (q.agent == None || event.agent == q.agent) && (q.status == None || event.status == q.status)
    && (q.since == None || (event.ts == Missing && q.since.value <= 0.0)
        || exists numeral :: event.ts == At(numeral) && q.number(numeral) >= q.since.value)
  }

  /** Those are the events the scan wants. */
  lemma AsksIsWanted(q: Query, event: Body, hash: string)
    ensures Wanted(q, Event(event, hash)) <==> Asks(q, event)
    ensures q.since.Some? && event.ts.NotNumber? ==> !Wanted(q, Event(event, hash)) && !TooOld(q, Event(event, hash))
  {
  }

  /** What was recorded is asked for as the caller's event was. */
  lemma RecordedIsWanted(digest: Digest, q: Query, line: Line, event: Body, eventId: string, prev: string)
    requires Records(digest, line, event, eventId, prev)
    ensures Wanted(q, line) <==> Asks(q, event)
  {
    AsksIsWanted(q, line.body, line.hash);
  }

  /** How far `verify` has come: everything read so far fits, and its three variables say where it ends. */
  ghost predicate Reached(digest: Digest, done: seq<Line>, prev: string, seenHashed: bool, globalIndex: int) {
    && Intact(digest, done) && prev == LastHash(done)
    && (seenHashed <==> Chained(done) != []) && globalIndex == |done|
  }

  /** What the scan has found and what it will still find. */
  ghost predicate Pending(q: Query, all: seq<Line>, found: seq<Line>, lines: seq<Line>, left: Option<int>) {
    all == found + Scan(q, lines, left)
  }

  lemma PendingStep(q: Query, all: seq<Line>, found: seq<Line>, older: seq<Line>, newer: seq<Line>, before: Option<int>,
                    stopped: bool, more: seq<Line>, left: Option<int>)
    requires Pending(q, all, found, older + newer, before)
    requires Scan(q, older + newer, before) == more + if stopped then [] else Scan(q, older, left)
    ensures if stopped then all == found + more else Pending(q, all, found + more, older, left)
  {
  }

  lemma PendingNothing(q: Query, all: seq<Line>, found: seq<Line>, files: Files, paths: seq<string>, left: Option<int>)
    requires paths == [] && Pending(q, all, found, Joined(files, paths), left)
    ensures found == all
  {
  }

  ghost predicate FirstOffence(digest: Digest, lines: seq<Line>, i: int) {
    0 <= i < |lines| && Intact(digest, lines[..i]) && !Fits(digest, lines[..i], lines[i])
  }

  lemma Snoc(done: seq<Line>, raw: seq<Line>, j: nat)
    requires j < |raw|
    ensures (done + raw[..j]) + [raw[j]] == done + raw[..j + 1]
  {
  }

  lemma MisfitIn(digest: Digest, done: seq<Line>, raw: seq<Line>, j: nat)
    requires j < |raw| && Intact(digest, done + raw[..j]) && !Fits(digest, done + raw[..j], raw[j])
    ensures FirstOffence(digest, done + raw, |done| + j)
  {
    assert (done + raw)[..|done| + j] == done + raw[..j];
  }

  lemma OffenceStays(digest: Digest, lines: seq<Line>, rest: seq<Line>, i: int)
    requires FirstOffence(digest, lines, i)
    ensures FirstOffence(digest, lines + rest, i) && !Intact(digest, lines + rest)
  {
    if Intact(digest, lines + rest) {
      IntactAt(digest, lines + rest, i);
    }
    assert (lines + rest)[..i] == lines[..i] && (lines + rest)[i] == lines[i];
  }

  /** One more file in the middle of a list of files. */
  lemma JoinedSteps(files: Files, paths: seq<string>, k: nat)
    requires k < |paths|
    ensures Joined(files, paths[..k + 1]) == Joined(files, paths[..k]) + FileAt(files, paths[k])
    ensures paths[k] !in files ==> Joined(files, paths[..k + 1]) == Joined(files, paths[..k])
    ensures Joined(files, paths) == Joined(files, paths[..k + 1]) + Joined(files, paths[k + 1..])
  {
    assert paths[..k + 1][..k] == paths[..k];
    JoinedSplit(files, paths, k + 1);
  }

  lemma LastHashGrows(lines: seq<Line>, line: Line)
    ensures LastHash(lines + [line]) == if Hashed(line) then line.hash else LastHash(lines)
  {
  }
}
