/** The hash chain of the audit log (src/data_olympus/audit_log.py), over lines in chronological order. */
module AuditChain {
  import opened Common

  /** An event's `ts` field: absent, a number as it is written, or something that is not one. */
  datatype Stamp = Missing | At(numeral: string) | NotNumber

  /** Every field of an event except its own hash; `rest` stands for the fields nothing here reads. */
  datatype Body = Body(eventId: string, prevHash: Option<string>, ts: Stamp, agent: Option<string>,
                       status: Option<string>, rest: string)

  /** One line of a log file. An event with the empty hash is a legacy event without one. */
  datatype Line = Blank | Garbage | Scalar(value: string) | Event(body: Body, hash: string)

  type Digest = Body -> string

  const GENESIS := ""

  /** The two facts about SHA-256 (or its keyed form) that the chain rests on. */
  ghost predicate Sound(digest: Digest) {
    && (forall b :: digest(b) != "")
    && (forall b, c :: digest(b) == digest(c) ==> b == c)
  }

  predicate Hashed(line: Line) {
    line.Event? && line.hash != ""
  }

  /** A hashed event. */
  datatype Link = Link(body: Body, hash: string)

  /** The hashed events of a log, in order. */
  function Chained(lines: seq<Line>): seq<Link>
    decreases |lines|
  {
    if lines == [] then [] else Chained(lines[..|lines| - 1]) + LinkOf(lines[|lines| - 1])
  }

  function LinkOf(line: Line): seq<Link> {
    if Hashed(line) then [Link(line.body, line.hash)] else []
  }

  function LastOf(chain: seq<Link>): string {
    if chain == [] then GENESIS else chain[|chain| - 1].hash
  }

  /** The hash a new event links to. */
  function LastHash(lines: seq<Line>): string {
    LastOf(Chained(lines))
  }

  /** What `verify` asks of a line that follows `before`. */
  predicate Fits(digest: Digest, before: seq<Line>, line: Line) {
    match line
    case Blank => true
    case Garbage => false
    case Scalar(_) => Chained(before) == []
    case Event(body, hash) =>
      if hash == "" then Chained(before) == []
      else body.prevHash == Some(LastHash(before)) && hash == digest(body)
  }

  /** Every line fits what precedes it. */
  predicate Intact(digest: Digest, lines: seq<Line>)
    decreases |lines|
  {
    lines == [] ||
    (Intact(digest, lines[..|lines| - 1]) && Fits(digest, lines[..|lines| - 1], lines[|lines| - 1]))
  }

  /** Hashed events that link up from the start: the chain itself, without the lines around it. */
  predicate Linked(digest: Digest, chain: seq<Link>)
    decreases |chain|
  {
    chain == [] ||
    (Linked(digest, chain[..|chain| - 1]) && LinksTo(digest, chain[..|chain| - 1], chain[|chain| - 1]))
  }

  predicate LinksTo(digest: Digest, before: seq<Link>, link: Link) {
    && link.hash != "" && link.hash == digest(link.body)
    && link.body.prevHash == Some(LastOf(before))
  }

  lemma ChainedGrows(lines: seq<Line>, line: Line)
    ensures Chained(lines + [line]) == Chained(lines) + LinkOf(line)
  {
  }

  lemma {:induction false} ChainedConcat(a: seq<Line>, b: seq<Line>)
    ensures Chained(a + b) == Chained(a) + Chained(b)
    decreases |b|
  {
    if b == [] {
      assert a + b == a;
    } else {
      var init, line := b[..|b| - 1], b[|b| - 1];
      calc {
        Chained(a + b);
        { assert a + b == (a + init) + [line]; }
        Chained((a + init) + [line]);
        { ChainedGrows(a + init, line); }
        Chained(a + init) + LinkOf(line);
        { ChainedConcat(a, init); }
        (Chained(a) + Chained(init)) + LinkOf(line);
        Chained(a) + Chained(b);
      }
    }
  }

  lemma LastHashConcat(a: seq<Line>, b: seq<Line>)
    ensures LastHash(a + b) == if Chained(b) == [] then LastHash(a) else LastHash(b)
  {
    ChainedConcat(a, b);
  }

  lemma {:induction false} IntactPrefix(digest: Digest, a: seq<Line>, b: seq<Line>)
    requires Intact(digest, a + b)
    ensures Intact(digest, a)
    decreases |b|
  {
    if b == [] {
      assert a + b == a;
    } else {
      assert (a + b)[..|a + b| - 1] == a + b[..|b| - 1];
      IntactPrefix(digest, a, b[..|b| - 1]);
    }
  }

  lemma IntactGrows(digest: Digest, lines: seq<Line>, line: Line)
    ensures Intact(digest, lines + [line]) <==> Intact(digest, lines) && Fits(digest, lines, line)
  {
  }

  /** Line by line: no line of an intact log fails to fit, wherever it stands. */
  lemma IntactAt(digest: Digest, lines: seq<Line>, i: nat)
    requires Intact(digest, lines) && i < |lines|
    ensures Fits(digest, lines[..i], lines[i])
  {
    assert lines == lines[..i + 1] + lines[i + 1..];
    IntactPrefix(digest, lines[..i + 1], lines[i + 1..]);
    assert lines[..i + 1][..i] == lines[..i];
  }

  /** Once the chain has begun every line that is not blank is a hashed event. */
  ghost predicate LegacyOnlyBefore(lines: seq<Line>) {
    forall i :: 0 <= i < |lines| && !lines[i].Blank? && !Hashed(lines[i]) ==> Chained(lines[..i]) == []
  }

  /** `verify` accepts exactly the logs whose hashed events link up, with other JSON lines only in front. */
  lemma {:induction false} IntactMeansLinked(digest: Digest, lines: seq<Line>)
    ensures Intact(digest, lines) <==>
            Linked(digest, Chained(lines)) && LegacyOnlyBefore(lines) && Garbage !in lines
    decreases |lines|
  {
    if lines != [] {
      var init, line := lines[..|lines| - 1], lines[|lines| - 1];
      assert lines == init + [line];
      IntactMeansLinked(digest, init);
      IntactGrows(digest, init, line);
      if Hashed(line) {
        assert Chained(lines)[..|Chained(lines)| - 1] == Chained(init);
      } else {
        assert Chained(lines) == Chained(init);
      }
      assert Garbage in lines <==> Garbage in init || line == Garbage;
      LegacyGrows(init, line);
    }
  }

  lemma LegacyGrows(lines: seq<Line>, line: Line)
    ensures LegacyOnlyBefore(lines + [line]) <==>
            LegacyOnlyBefore(lines) && (line.Blank? || Hashed(line) || Chained(lines) == [])
  {
    var all := lines + [line];
    assert all[|lines|] == line && all[..|lines|] == lines;
    assert forall i :: 0 <= i < |lines| ==> all[i] == lines[i] && all[..i] == lines[..i];
    if LegacyOnlyBefore(all) {
      forall i | 0 <= i < |lines| && !lines[i].Blank? && !Hashed(lines[i]) ensures Chained(lines[..i]) == [] {
        assert all[i] == lines[i];
      }
    }
  }

  // ---- What an intact chain detects ----------------------------------------------------------

  lemma {:induction false} LinkedSame(digest: Digest, a: seq<Link>, b: seq<Link>)
    requires Sound(digest) && Linked(digest, a) && Linked(digest, b) && LastOf(a) == LastOf(b)
    ensures a == b
    decreases |a|
  {
    if a != [] && b != [] {
      LinkedSame(digest, a[..|a| - 1], b[..|b| - 1]);
    }
  }

  /** Two logs that both verify and end in the same hash hold the same hashed events in the same order. */
  lemma {:induction false} SameHashSameEvents(digest: Digest, a: seq<Line>, b: seq<Line>)
    requires Sound(digest) && Intact(digest, a) && Intact(digest, b) && LastHash(a) == LastHash(b)
    ensures Chained(a) == Chained(b)
  {
    IntactMeansLinked(digest, a);
    IntactMeansLinked(digest, b);
    LinkedSame(digest, Chained(a), Chained(b));
  }

  /** Losing the head of the chain is detected. */
  lemma LostHeadDetected(digest: Digest, head: seq<Line>, rest: seq<Line>)
    requires Sound(digest) && Intact(digest, head + rest) && Chained(head) != [] && Chained(rest) != []
    ensures !Intact(digest, rest)
  {
    if Intact(digest, rest) {
      LastHashConcat(head, rest);
      SameHashSameEvents(digest, head + rest, rest);
      ChainedConcat(head, rest);
    }
  }

  /** Losing a middle stretch is detected as soon as anything hashed follows it. */
  lemma LostMiddleDetected(digest: Digest, head: seq<Line>, lost: seq<Line>, rest: seq<Line>)
    requires Sound(digest) && Intact(digest, head + lost + rest) && Chained(lost) != [] && Chained(rest) != []
    ensures !Intact(digest, head + rest)
  {
    if Intact(digest, head + rest) {
      LastHashConcat(head + lost, rest);
      LastHashConcat(head, rest);
      SameHashSameEvents(digest, head + lost + rest, head + rest);
      ChainedConcat(head + lost, rest);
      ChainedConcat(head, lost);
      ChainedConcat(head, rest);
    }
  }

  /** The first hashed event of a stretch tells which hash precedes it. */
  lemma {:induction false} FirstLink(digest: Digest, before: seq<Line>, stretch: seq<Line>)
    requires Intact(digest, before + stretch) && Chained(stretch) != []
    ensures Chained(stretch)[0].body.prevHash == Some(LastHash(before))
    decreases |stretch|
  {
    var init, line := stretch[..|stretch| - 1], stretch[|stretch| - 1];
    assert before + stretch == (before + init) + [line];
    IntactGrows(digest, before + init, line);
    if Chained(init) != [] {
      FirstLink(digest, before, init);
    } else {
      LastHashConcat(before, init);
    }
  }

  /** Two hashed stretches of an intact log cannot change places, whatever follows. */
  lemma SwapDetected(digest: Digest, a: seq<Line>, b: seq<Line>, c: seq<Line>, d: seq<Line>)
    requires Sound(digest) && Intact(digest, a + b + c) && Chained(b) != [] && Chained(c) != []
    ensures !Intact(digest, a + c + b + d)
  {
    if Intact(digest, a + c + b + d) {
      IntactPrefix(digest, a + c + b, d);
      IntactPrefix(digest, a + b, c);
      FirstLink(digest, a, b);
      FirstLink(digest, a + c, b);
      LastHashConcat(a, c);
      LastHashConcat(a + b, c);
      IntactPrefix(digest, a, b);
      SameHashSameEvents(digest, a + b + c, a);
      ChainedConcat(a + b, c);
      ChainedConcat(a, b);
    }
  }

  // ---- There are such digests -----------------------------------------------------------------

  /** A self-delimiting encoding: every character behind an `x`, and a dot at the end. */
  function Escaped(s: string): string {
    if s == "" then "." else ['x', s[0]] + Escaped(s[1..])
  }

  lemma {:induction false} EscapedSplits(s: string, x: string, t: string, y: string)
    requires Escaped(s) + x == Escaped(t) + y
    ensures s == t && x == y
  {
    assert (Escaped(s) + x)[0] == Escaped(s)[0] && (Escaped(t) + y)[0] == Escaped(t)[0];
    if s == "" || t == "" {
      assert (Escaped(s) + x)[1..] == x && (Escaped(t) + y)[1..] == y;
    } else {
      assert (Escaped(s) + x)[1] == s[0] && (Escaped(t) + y)[1] == t[0];
      assert (Escaped(s) + x)[2..] == Escaped(s[1..]) + x && (Escaped(t) + y)[2..] == Escaped(t[1..]) + y;
      EscapedSplits(s[1..], x, t[1..], y);
      assert s == [s[0]] + s[1..] && t == [t[0]] + t[1..];
    }
  }

  /** An optional field, tagged by whether it is there. */
  function EscapedOption(o: Option<string>): string {
    Escaped(if o.None? then "" else "s" + o.value)
  }

  function EscapedStamp(ts: Stamp): string {
    Escaped(match ts case Missing => "m" case NotNumber => "n" case At(numeral) => "a" + numeral)
  }

  lemma OptionSplits(o: Option<string>, x: string, p: Option<string>, y: string)
    requires EscapedOption(o) + x == EscapedOption(p) + y
    ensures o == p && x == y
  {
    var s, t := if o.None? then "" else "s" + o.value, if p.None? then "" else "s" + p.value;
    EscapedSplits(s, x, t, y);
    assert o.Some? ==> s[1..] == o.value;
    assert p.Some? ==> t[1..] == p.value;
  }

  lemma StampSplits(ts: Stamp, x: string, us: Stamp, y: string)
    requires EscapedStamp(ts) + x == EscapedStamp(us) + y
    ensures ts == us && x == y
  {
    var s := match ts case Missing => "m" case NotNumber => "n" case At(numeral) => "a" + numeral;
    var t := match us case Missing => "m" case NotNumber => "n" case At(numeral) => "a" + numeral;
    EscapedSplits(s, x, t, y);
    assert s[0] == t[0];
    assert ts.At? ==> s[1..] == ts.numeral;
    assert us.At? ==> t[1..] == us.numeral;
  }

  /** All fields of a body in one string. */
  function Encoding(b: Body): string {
    Escaped(b.eventId) + (EscapedOption(b.prevHash) + (EscapedStamp(b.ts) + (EscapedOption(b.agent) +
    (EscapedOption(b.status) + Escaped(b.rest)))))
  }

  lemma EncodingIsInjective(b: Body, c: Body)
    requires Encoding(b) == Encoding(c)
    ensures b == c
  {
    var b1, c1 := EscapedOption(b.status) + Escaped(b.rest), EscapedOption(c.status) + Escaped(c.rest);
    var b2, c2 := EscapedOption(b.agent) + b1, EscapedOption(c.agent) + c1;
    var b3, c3 := EscapedStamp(b.ts) + b2, EscapedStamp(c.ts) + c2;
    var b4, c4 := EscapedOption(b.prevHash) + b3, EscapedOption(c.prevHash) + c3;
    EscapedSplits(b.eventId, b4, c.eventId, c4);
    OptionSplits(b.prevHash, b3, c.prevHash, c3);
    StampSplits(b.ts, b2, c.ts, c2);
    OptionSplits(b.agent, b1, c.agent, c1);
    OptionSplits(b.status, Escaped(b.rest), c.status, Escaped(c.rest));
    assert Escaped(b.rest) + "" == Escaped(c.rest) + "";
    EscapedSplits(b.rest, "", c.rest, "");
  }

  /** The hypothesis on digests can be met: bodies are finite texts, and an injective encoding is one of them. */
  lemma SomeDigestIsSound()
    ensures Sound(Encoding)
  {
    forall b ensures Encoding(b) != "" {
      assert Encoding(b)[0] == Escaped(b.eventId)[0];
    }
    forall b, c | Encoding(b) == Encoding(c) ensures b == c {
      EncodingIsInjective(b, c);
    }
  }
}
