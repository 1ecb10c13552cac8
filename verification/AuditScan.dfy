/** Reading the log newest first (`iter_filtered`, src/data_olympus/audit_log.py:213-287). */
module AuditScan {
  import opened Common
  import opened AuditChain

  /** The filters, and which number a numeral stands for. */
  datatype Query = Query(since: Option<real>, agent: Option<string>, status: Option<string>, number: string -> real)

  /** The time the scan compares: an absent `ts` reads as 0. */
  function Seconds(q: Query, line: Line): Option<real> {
    if !line.Event? then None
    else match line.body.ts
      case Missing => Some(0.0)
      case At(numeral) => Some(q.number(numeral))
      case NotNumber => None
  }

  /** Does the query ask for this line? */
  predicate Wanted(q: Query, line: Line) {
    match line
    case Blank => false
    case Garbage => false
    case Scalar(_) => q.since.None? && q.agent.None? && q.status.None?
    case Event(body, _) =>
      && (q.since.Some? ==> Seconds(q, line).Some? && Seconds(q, line).value >= q.since.value)
      && (q.agent.Some? ==> body.agent == q.agent)
      && (q.status.Some? ==> body.status == q.status)
  }

  /** The line at which a scan with `since` stops. */
  predicate TooOld(q: Query, line: Line) {
    q.since.Some? && Seconds(q, line).Some? && Seconds(q, line).value < q.since.value
  }

  /** The last `n` lines that are not blank, oldest first; all of them without a limit. */
  function Recent(lines: seq<Line>, n: Option<int>): seq<Line>
    decreases |lines|
  {
    if lines == [] || (n.Some? && n.value <= 0) then []
    else
      var init, line := lines[..|lines| - 1], lines[|lines| - 1];
      if line.Blank? then Recent(init, n) else Recent(init, Less(n)) + [line]
  }

  function Less(n: Option<int>): Option<int> {
    if n.Some? then Some(n.value - 1) else None
  }

  /** The wanted lines, newest first. */
  function NewestFirst(q: Query, lines: seq<Line>): seq<Line>
    decreases |lines|
  {
    if lines == [] then [] else OneIf(q, lines[|lines| - 1]) + NewestFirst(q, lines[..|lines| - 1])
  }

  function OneIf(q: Query, line: Line): seq<Line> {
    if Wanted(q, line) then [line] else []
  }

  /** What a scan of `lines` from the end yields when it may still examine `n` of them. */
  function Scan(q: Query, lines: seq<Line>, n: Option<int>): seq<Line>
    decreases |lines|
  {
    if lines == [] || (n.Some? && n.value <= 0) then []
    else
      var init, line := lines[..|lines| - 1], lines[|lines| - 1];
      if line.Blank? then Scan(q, init, n)
      else if TooOld(q, line) then []
      else OneIf(q, line) + Scan(q, init, Less(n))
  }

  /** Nothing wanted lies below a line that stops the scan. */
  ghost predicate StopsSafely(q: Query, lines: seq<Line>) {
    forall i, j :: 0 <= i < j < |lines| && TooOld(q, lines[j]) ==> !Wanted(q, lines[i])
  }

  /** Times never run backwards in the log. */
  ghost predicate InTimeOrder(q: Query, lines: seq<Line>) {
    forall i, j :: 0 <= i < j < |lines| && Seconds(q, lines[i]).Some? && Seconds(q, lines[j]).Some? ==>
      Seconds(q, lines[i]).value <= Seconds(q, lines[j]).value
  }

  lemma {:induction false} NothingWanted(q: Query, lines: seq<Line>)
    ensures NewestFirst(q, lines) == [] <==> forall i :: 0 <= i < |lines| ==> !Wanted(q, lines[i])
    decreases |lines|
  {
    if lines != [] {
      var init := lines[..|lines| - 1];
      NothingWanted(q, init);
      assert forall i :: 0 <= i < |init| ==> lines[i] == init[i];
    }
  }

  /** The early stop loses nothing exactly when nothing wanted lies below the stopping line. */
  lemma {:induction false} ScanExactWhenStopsSafely(q: Query, lines: seq<Line>, n: Option<int>)
    ensures Scan(q, lines, n) == NewestFirst(q, Recent(lines, n)) <==> StopsSafely(q, Recent(lines, n))
    decreases |lines|
  {
    if lines != [] && !(n.Some? && n.value <= 0) {
      var init, line := lines[..|lines| - 1], lines[|lines| - 1];
      if line.Blank? {
        ScanExactWhenStopsSafely(q, init, n);
      } else {
        var below, all := Recent(init, Less(n)), Recent(lines, n);
        ScanExactWhenStopsSafely(q, init, Less(n));
        assert all == below + [line] && all[..|all| - 1] == below;
        NothingWanted(q, below);
        StopsSafelyGrows(q, below, line);
        assert NewestFirst(q, all) == OneIf(q, line) + NewestFirst(q, below);
        if !TooOld(q, line) {
          SamePrefix(OneIf(q, line), Scan(q, init, Less(n)), NewestFirst(q, below));
        }
      }
    }
  }

  lemma SamePrefix(p: seq<Line>, x: seq<Line>, y: seq<Line>)
    ensures p + x == p + y <==> x == y
  {
    assert (p + x)[|p|..] == x && (p + y)[|p|..] == y;
  }

  lemma StopsSafelyGrows(q: Query, below: seq<Line>, line: Line)
    ensures StopsSafely(q, below + [line]) <==>
            if TooOld(q, line) then (forall i :: 0 <= i < |below| ==> !Wanted(q, below[i])) else StopsSafely(q, below)
  {
    var all := below + [line];
    assert forall i :: 0 <= i < |below| ==> all[i] == below[i];
    assert all[|below|] == line;
    if StopsSafely(q, all) {
      assert forall i, j :: 0 <= i < j < |below| && TooOld(q, all[j]) ==> !Wanted(q, all[i]);
    }
  }

  lemma {:induction false} RecentKeepsOrder(q: Query, lines: seq<Line>, n: Option<int>)
    requires InTimeOrder(q, lines)
    ensures InTimeOrder(q, Recent(lines, n))
    ensures forall line :: line in Recent(lines, n) ==> line in lines
    decreases |lines|
  {
    if lines != [] && !(n.Some? && n.value <= 0) {
      var init, line := lines[..|lines| - 1], lines[|lines| - 1];
      assert InTimeOrder(q, init);
      if line.Blank? {
        RecentKeepsOrder(q, init, n);
      } else {
        var below := Recent(init, Less(n));
        RecentKeepsOrder(q, init, Less(n));
        forall i | 0 <= i < |below| && Seconds(q, below[i]).Some? && Seconds(q, line).Some?
          ensures Seconds(q, below[i]).value <= Seconds(q, line).value
        {
          assert below[i] in init;
        }
      }
    }
  }

  /** On a log in time order the scan yields every wanted line among the last `n`, newest first. */
  lemma ScanInTimeOrder(q: Query, lines: seq<Line>, n: Option<int>)
    requires InTimeOrder(q, lines)
    ensures Scan(q, lines, n) == NewestFirst(q, Recent(lines, n))
  {
    RecentKeepsOrder(q, lines, n);
    var recent := Recent(lines, n);
    forall i, j | 0 <= i < j < |recent| && TooOld(q, recent[j]) ensures !Wanted(q, recent[i]) {
      assert Seconds(q, recent[j]).Some?;
      if recent[i].Scalar? {
        assert q.since.Some?;
      }
    }
    ScanExactWhenStopsSafely(q, lines, n);
  }

  /** Without a limit nothing but blank lines is left out. */
  lemma {:induction false} UnlimitedSeesAll(q: Query, lines: seq<Line>)
    ensures NewestFirst(q, Recent(lines, None)) == NewestFirst(q, lines)
    decreases |lines|
  {
    if lines != [] {
      var init, line := lines[..|lines| - 1], lines[|lines| - 1];
      UnlimitedSeesAll(q, init);
      if !line.Blank? {
        assert Recent(lines, None)[..|Recent(lines, None)| - 1] == Recent(init, None);
      }
    }
  }

  /** An event without `ts` reads as time 0, so under any positive `since` it hides every wanted event before it. */
  lemma MissingTimeHides(q: Query, wanted: Line, untimed: Line)
    requires q.since.Some? && q.since.value > 0.0 && Wanted(q, wanted) && untimed.Event? && untimed.body.ts.Missing?
    ensures Scan(q, [wanted, untimed], None) == [] && NewestFirst(q, [wanted, untimed]) == [wanted]
  {
    var lines := [wanted, untimed];
    assert lines[..1] == [wanted] && [wanted][..0] == [];
    assert NewestFirst(q, [wanted]) == OneIf(q, wanted) + NewestFirst(q, []);
  }

  /** A last line that is wanted is the first to be yielded. */
  lemma ScanFirst(q: Query, lines: seq<Line>, n: Option<int>)
    requires lines != [] && Wanted(q, lines[|lines| - 1]) && (n.Some? ==> n.value > 0)
    ensures Scan(q, lines, n) != [] && Scan(q, lines, n)[0] == lines[|lines| - 1]
  {
  }

  function NonBlank(lines: seq<Line>): seq<Line>
    decreases |lines|
  {
    if lines == [] then []
    else NonBlank(lines[..|lines| - 1]) + (if lines[|lines| - 1] == Blank then [] else [lines[|lines| - 1]])
  }

  /** The recent lines are the last `n` of those that are not blank, or all of them. */
  lemma {:induction false} RecentMeans(lines: seq<Line>, n: Option<int>)
    ensures var all := NonBlank(lines);
            Recent(lines, n) == if n.None? || n.value >= |all| then all
                                else if n.value <= 0 then [] else all[|all| - n.value..]
    decreases |lines|
  {
    if lines != [] && !(n.Some? && n.value <= 0) {
      var init, line := lines[..|lines| - 1], lines[|lines| - 1];
      RecentMeans(init, if line.Blank? then n else Less(n));
    }
  }
}
