/** Whole runs of the audit log: appends, rotations, restarts and crashes between the two. */
module AuditRuns {
  import opened Common
  import opened SegmentNames
  import opened AuditChain
  import opened AuditSegments
  import opened AuditFiles

  /** A crash may fall between the rename of a rotation and the write of the event. */
  datatype Step = Appending(event: Body, eventId: string, at: Instant) | Restarting | CrashedAfterRotation(at: Instant)

  predicate StepOnClock(step: Step) {
    step.Restarting? || OnClock(step.at)
  }

  /** The line a step writes, if it is an append. */
  function StepLines(digest: Digest, last: string, step: Step): seq<Line> {
    if step.Appending? then [NextLine(digest, step.event, step.eventId, last)] else []
  }

  /** The lines the appends of a run write, each linked to the one before. */
  function NewLines(digest: Digest, last: string, script: seq<Step>): seq<Line>
    decreases |script|
  {
    if script == [] then [] else
      var before := NewLines(digest, last, script[..|script| - 1]);
      before + StepLines(digest, LastAfter(last, before), script[|script| - 1])
  }

  function LastAfter(last: string, lines: seq<Line>): string {
    if Chained(lines) == [] then last else LastHash(lines)
  }

  /** The appends of a run. */
  function Appends(script: seq<Step>): seq<Step>
    decreases |script|
  {
    if script == [] then []
    else Appends(script[..|script| - 1]) + (if script[|script| - 1].Appending? then [script[|script| - 1]] else [])
  }

  /** The `i`-th line records the `i`-th append, linked to the line before it. */
  ghost predicate RecordsAppend(digest: Digest, last: string, lines: seq<Line>, appends: seq<Step>, i: nat)
    requires i < |lines| && |lines| == |appends|
  {
    && appends[i].Appending? && (i > 0 ==> lines[i - 1].Event?)
    && Records(digest, lines[i], appends[i].event, appends[i].eventId, if i == 0 then last else lines[i - 1].hash)
  }

  /** The lines of a run are the events of its appends, one for one and in order, with every field as it was given. */
  lemma {:induction false} NewLinesAre(digest: Digest, last: string, script: seq<Step>)
    requires Sound(digest)
    ensures |NewLines(digest, last, script)| == |Appends(script)|
    ensures forall i :: 0 <= i < |NewLines(digest, last, script)| ==>
              RecordsAppend(digest, last, NewLines(digest, last, script), Appends(script), i)
    decreases |script|
  {
    if script != [] {
      var init, step := script[..|script| - 1], script[|script| - 1];
      var before := NewLines(digest, last, init);
      NewLinesAre(digest, last, init);
      if step.Appending? {
        OneMoreLine(digest, last, before, Appends(init), step);
      } else {
        assert before + [] == before && Appends(init) + [] == Appends(init);
      }
    }
  }

  lemma OneMoreLine(digest: Digest, last: string, before: seq<Line>, appends: seq<Step>, step: Step)
    requires Sound(digest) && |before| == |appends| && step.Appending?
    requires forall i :: 0 <= i < |before| ==> RecordsAppend(digest, last, before, appends, i)
    ensures var lines := before + [NextLine(digest, step.event, step.eventId, LastAfter(last, before))];
            forall i :: 0 <= i < |lines| ==> RecordsAppend(digest, last, lines, appends + [step], i)
  {
    LastAfterIs(digest, last, before, appends);
    var lines := before + [NextLine(digest, step.event, step.eventId, LastAfter(last, before))];
    forall i | 0 <= i < |lines| ensures RecordsAppend(digest, last, lines, appends + [step], i) {
      if i < |before| {
        assert RecordsAppend(digest, last, before, appends, i);
      }
    }
  }

  lemma LastAfterIs(digest: Digest, last: string, lines: seq<Line>, appends: seq<Step>)
    requires Sound(digest) && |lines| == |appends|
    requires forall i :: 0 <= i < |lines| ==> RecordsAppend(digest, last, lines, appends, i)
    ensures lines == [] ==> LastAfter(last, lines) == last
    ensures lines != [] ==> lines[|lines| - 1].Event? && LastAfter(last, lines) == lines[|lines| - 1].hash
  {
    if lines != [] {
      assert RecordsAppend(digest, last, lines, appends, |lines| - 1);
    }
  }

  lemma RotationsPrefix(rotations: seq<Instant>, more: seq<Instant>)
    requires EverLater(rotations + more)
    ensures EverLater(rotations)
    ensures |more| > 0 ==> Later(more[0], rotations)
  {
    var all := rotations + more;
    assert forall i :: 0 <= i < |rotations| ==> all[i] == rotations[i];
    assert |more| > 0 ==> all[|rotations|] == more[0];
  }

  ghost predicate Continues(before: seq<Instant>, after: seq<Instant>) {
    |before| <= |after| && after[..|before|] == before
  }

  method Perform(log: AuditLog, step: Step)
    requires StepOnClock(step)
    modifies log
    ensures Continues(old(log.rotations), log.rotations)
    ensures old(log.Good()) && EverLater(log.rotations) ==>
              log.Good() && log.Log() == old(log.Log()) + StepLines(log.digest, old(log.lastHash), step)
  {
    match step {
      case Appending(event, eventId, at) =>
        ghost var n := log.Append(event, eventId, at);
      case Restarting =>
        log.Restart();
      case CrashedAfterRotation(at) =>
        ghost var files, rotations, rotates := log.files, log.rotations, log.Rotates();
        ghost var n := log.MaybeRotate(at);
        if rotates && Healthy(log.place, log.digest, files, log.lastHash, rotations) && Later(at, rotations) {
          RotationKeepsHealthy(log.place, log.digest, files, log.lastHash, rotations, at, n);
        }
        log.Restart();
    }
    if !step.Restarting? && EverLater(old(log.rotations) + [step.at]) {
      RotationsPrefix(old(log.rotations), [step.at]);
    }
  }

  lemma ContinuesPrefix(before: seq<Instant>, after: seq<Instant>)
    requires Continues(before, after) && EverLater(after)
    ensures EverLater(before)
  {
  }

  /** The run so far has written `written` after `start`, and the log is good. */
  ghost predicate SoFar(log: AuditLog, start: seq<Line>, written: seq<Line>)
    reads log
  {
    log.Good() && log.Log() == start + written
  }

  method PerformNext(log: AuditLog, step: Step, ghost start: seq<Line>, ghost written: seq<Line>)
    requires StepOnClock(step)
    modifies log
    ensures Continues(old(log.rotations), log.rotations)
    ensures old(SoFar(log, start, written)) && EverLater(log.rotations) ==>
              SoFar(log, start, written + StepLines(log.digest, LastAfter(LastHash(start), written), step))
  {
    LastHashConcat(start, written);
    Regroup(start, written, StepLines(log.digest, log.lastHash, step));
    Perform(log, step);
  }

  /**
  Any run from a good state (a fresh directory, or files with unhashed legacy lines in front) whose
  rotations came at ever later instants ends in a good state, so `verify` accepts the log, and the log
  has gained exactly the appended events, in order.
  */
  method Run(log: AuditLog, script: seq<Step>)
    requires forall i :: 0 <= i < |script| ==> StepOnClock(script[i])
    modifies log
    ensures Continues(old(log.rotations), log.rotations)
    ensures old(log.Good()) && EverLater(log.rotations) ==>
              log.Good() && log.Log() == old(log.Log()) + NewLines(log.digest, old(log.lastHash), script)
  {
    ghost var start, last, good := log.Log(), LastHash(log.Log()), log.Good();
    assert start + [] == start;
    for i := 0 to |script|
      invariant Continues(old(log.rotations), log.rotations)
      invariant good && EverLater(log.rotations) ==> SoFar(log, start, NewLines(log.digest, last, script[..i]))
    {
      ghost var rotations := log.rotations;
      assert script[..i + 1][..i] == script[..i];
      PerformNext(log, script[i], start, NewLines(log.digest, last, script[..i]));
      if EverLater(log.rotations) {
        ContinuesPrefix(rotations, log.rotations);
      }
    }
    assert script[..|script|] == script;
  }

  lemma {:induction false} LegacyIsIntact(digest: Digest, lines: seq<Line>)
    requires Chained(lines) == [] && Garbage !in lines
    ensures Intact(digest, lines)
    decreases |lines|
  {
    if lines != [] {
      LegacyIsIntact(digest, lines[..|lines| - 1]);
    }
  }

  lemma OneFile(place: Place, lines: seq<Line>)
    requires Splits(place)
    ensures Tracks(place, map[LiveName(place) := lines], []) && LogOf(place, map[LiveName(place) := lines]) == lines
  {
    var files: Files := map[LiveName(place) := lines];
    SegmentsMatch(place, Instant(0, 0, 0, 0, 0, 0, 0), 0);
    assert Segments(place, files) == {};
    assert PlainNames(place, []) == [];
    NamesInOrder(place, files, []);
    assert Joined(files, []) + lines == lines;
  }

  /** A log from before chaining, one live file of lines without hashes, is a good state to start from. */
  lemma LegacyIsGood(place: Place, digest: Digest, lines: seq<Line>)
    requires Sound(digest) && Splits(place) && Chained(lines) == [] && Garbage !in lines
    ensures Healthy(place, digest, map[LiveName(place) := lines], GENESIS, [])
  {
    OneFile(place, lines);
    LegacyIsIntact(digest, lines);
  }
}
