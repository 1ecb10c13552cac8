/** The intent a denial suggests (src/data_olympus/tools_enforce.py:64-91), and when it clears the action. */
module Suggestion {
  import opened Common
  import opened Classifier
  import opened Clearance

  /** The first quote character the value does not contain. */
  function QuoteFor(value: string): char {
    if '"' !in value then '"' else if '\'' !in value then '\'' else if '`' !in value then '`' else '"'
  }

  function Quoted(value: string): string {
    [QuoteFor(value)] + value + [QuoteFor(value)]
  }

  predicate HasKind(sig: string, kind: string) {
    |sig| >= |kind| && sig[..|kind|] == kind
  }

  /** The configured fragment behind a command signal, untrimmed. */
  function CommandPattern(a: Alphabet, commands: seq<string>, sig: string): Option<string> {
    if commands == [] then None
    else if sig == "command:" + Strip(a, commands[0]) then Some(commands[0])
    else CommandPattern(a, commands[1..], sig)
  }

  /** What follows the first colon. */
  function ValueOf(sig: string): string {
    if sig == "" then "" else if sig[0] == ':' then sig[1..] else ValueOf(sig[1..])
  }

  function Part(v: Vocabulary, sig: string, path: Option<string>): string {
    if HasKind(sig, "path:") && HasPath(path) then "edit " + Quoted(path.value)
    else if HasKind(sig, "command:") then "run " + Quoted(CommandText(v, sig))
    else ValueOf(sig)
  }

  function CommandText(v: Vocabulary, sig: string): string {
    var pattern := CommandPattern(v.chars, v.commands, sig);
    if pattern.Some? && pattern.value != "" then pattern.value else ValueOf(sig)
  }

  predicate IsEdit(part: string) {
    HasKind(part, "edit ")
  }

  function Only(parts: seq<string>, edits: bool): seq<string> {
    if parts == [] then []
    else (if IsEdit(parts[0]) == edits then [parts[0]] else []) + Only(parts[1..], edits)
  }

  /** The stable sort that puts the path part first. */
  function EditsFirst(parts: seq<string>): seq<string> {
    Only(parts, true) + Only(parts, false)
  }

  function Joined(parts: seq<string>): string {
    if parts == [] then "" else if |parts| == 1 then parts[0] else parts[0] + "; " + Joined(parts[1..])
  }

  /** The parts of all signals, each once, in order. */
  function Parts(v: Vocabulary, signals: seq<string>, path: Option<string>): seq<string>
    decreases |signals|
  {
    if signals == [] then []
    else
      var earlier, part := Parts(v, signals[..|signals| - 1], path), Part(v, signals[|signals| - 1], path);
      if part in earlier then earlier else earlier + [part]
  }

  /** The intent suggested for a list of signals: all their parts, the path's first. */
  function Suggested(v: Vocabulary, signals: seq<string>, path: Option<string>): string {
    Joined(EditsFirst(Parts(v, signals, path)))
  }

  /** The keywords begin and end with word characters, and the path avoids one of the quote characters. */
  ghost predicate Advisable(v: Vocabulary, path: Option<string>) {
    && Sane(v) && (forall keyword :: keyword in v.keywords ==> WordEnds(v.chars, keyword))
    && (HasPath(path) ==> exists q :: IsQuote(q) && q !in path.value)
  }

  /** The signals are an action's, for some content. */
  ghost predicate OfAction(v: Vocabulary, signals: seq<string>, path: Option<string>) {
    exists diff :: forall sig :: sig in signals ==> sig in ActionSignals(v, path, diff)
  }

  /**
  `_suggest_intent`. The part of each uncovered signal stands in the intent by itself, and an intent so made
  for an action covers every one of the signals.
  */
  method SuggestIntent(v: Vocabulary, uncovered: seq<string>, path: Option<string>) returns (intent: string)
    ensures intent == Suggested(v, uncovered, path) && (uncovered == [] ==> intent == "")
    ensures forall sig :: sig in uncovered ==> exists before, rest :: Stands(intent, Part(v, sig, path), before, rest)
    ensures Advisable(v, path) && OfAction(v, uncovered, path) ==> forall sig :: sig in uncovered ==>
              Covers(v, intent, sig)
  {
    var parts := [];
    for i := 0 to |uncovered|
      invariant parts == Parts(v, uncovered[..i], path)
    {
      assert uncovered[..i + 1][..i] == uncovered[..i];
      var part := Part(v, uncovered[i], path);
      if part !in parts {
        parts := parts + [part];
      }
    }
    assert uncovered[..|uncovered|] == uncovered;
    intent := Joined(EditsFirst(parts));
    forall sig | sig in uncovered ensures exists before, rest :: Stands(intent, Part(v, sig, path), before, rest) {
      var before, rest := PartIsJoined(v, uncovered, path, sig);
    }
    if Advisable(v, path) && OfAction(v, uncovered, path) {
      var diff :| forall sig :: sig in uncovered ==> sig in ActionSignals(v, path, diff);
      forall sig | sig in uncovered ensures Covers(v, intent, sig) {
        SuggestionCovers(v, uncovered, path, diff, sig);
      }
    }
  }

  // ---- Where a part stands in the intent ------------------------------------------------------------

  lemma {:induction false} PartsHold(v: Vocabulary, signals: seq<string>, path: Option<string>)
    ensures forall sig :: sig in signals ==> Part(v, sig, path) in Parts(v, signals, path)
    ensures forall part :: part in Parts(v, signals, path) ==>
              exists sig :: sig in signals && part == Part(v, sig, path)
    decreases |signals|
  {
    if signals != [] {
      var init, last := signals[..|signals| - 1], signals[|signals| - 1];
      PartsHold(v, init, path);
      assert signals == init + [last];
      forall part | part in Parts(v, signals, path) ensures exists sig :: sig in signals && part == Part(v, sig, path) {
        if part in Parts(v, init, path) {
          var sig :| sig in init && part == Part(v, sig, path);
          assert sig in signals;
        } else {
          assert last in signals && part == Part(v, last, path);
        }
      }
    }
  }

  lemma {:induction false} OnlyHolds(parts: seq<string>, edits: bool)
    ensures forall part :: part in Only(parts, edits) <==> part in parts && IsEdit(part) == edits
  {
    if parts != [] {
      OnlyHolds(parts[1..], edits);
      assert parts == [parts[0]] + parts[1..];
    }
  }

  /** A part stands between the ends of the intent or separators. */
  ghost predicate Stands(intent: string, part: string, before: string, rest: string) {
    && intent == before + part + rest
    && (before == "" || before[|before| - 1] == ' ') && (rest == "" || rest[0] == ';')
  }

  lemma {:induction false} PartStands(parts: seq<string>, part: string) returns (before: string, rest: string)
    requires part in parts
    ensures Stands(Joined(parts), part, before, rest)
  {
    if parts[0] == part {
      before, rest := "", if |parts| == 1 then "" else "; " + Joined(parts[1..]);
    } else {
      var inner;
      inner, rest := PartStands(parts[1..], part);
      before := parts[0] + "; " + inner;
      assert Joined(parts) == before + part + rest;
    }
  }

  /** With an edit part among them, the intent begins with it. */
  lemma EditStandsFirst(parts: seq<string>, part: string) returns (rest: string)
    requires part in parts && IsEdit(part) && forall other :: other in parts && IsEdit(other) ==> other == part
    ensures Joined(EditsFirst(parts)) == part + rest
  {
    OnlyHolds(parts, true);
    var sorted := EditsFirst(parts);
    assert Only(parts, true)[0] in Only(parts, true);
    assert sorted[0] == part;
    rest := if |sorted| == 1 then "" else "; " + Joined(sorted[1..]);
  }

  // ---- What the suggestion covers --------------------------------------------------------------------

  predicate WordEnds(a: Alphabet, keyword: string) {
    keyword != "" && a.word(keyword[0]) && a.word(keyword[|keyword| - 1])
  }

  lemma {:induction false} ValueAfter(kind: string, value: string)
    requires ':' !in kind
    ensures ValueOf(kind + ":" + value) == value
  {
    if kind == "" {
      assert ("" + ":" + value)[1..] == value;
    } else {
      assert (kind + ":" + value)[1..] == kind[1..] + ":" + value;
      ValueAfter(kind[1..], value);
    }
  }

  lemma ValueOfKeyword(keyword: string)
    ensures ValueOf("keyword:" + keyword) == keyword && !HasKind("keyword:" + keyword, "path:") &&
            !HasKind("keyword:" + keyword, "command:")
  {
    ValueAfter("keyword", keyword);
    assert "keyword" + ":" + keyword == "keyword:" + keyword;
    assert ("keyword:" + keyword)[0] == 'k';
  }

  lemma KeywordBetween(a: Alphabet, x: string, keyword: string, y: string)
    requires WordEnds(a, keyword) && (x == "" || !a.word(x[|x| - 1])) && (y == "" || !a.word(y[0]))
    ensures HasKeyword(a, x + keyword + y, keyword)
  {
    var text, n, m := x + keyword + y, |x|, |x| + |keyword|;
    assert text[n..m] == keyword;
    assert text[n] == keyword[0] && text[m - 1] == keyword[|keyword| - 1];
    assert n > 0 ==> text[n - 1] == x[n - 1];
    assert m < |text| ==> text[m] == y[0];
    assert KeywordAt(a, text, n, keyword);
  }

  /** A keyword that begins and ends with word characters is found wherever it stands between separators. */
  lemma KeywordStands(v: Vocabulary, intent: string, keyword: string, before: string, rest: string)
    requires Sane(v) && keyword in v.keywords && WordEnds(v.chars, keyword) && Stands(intent, keyword, before, rest)
    ensures Covers(v, intent, "keyword:" + keyword)
  {
    var a := v.chars;
    LowerParts(a, before + keyword, rest);
    LowerParts(a, before, keyword);
    KeywordBetween(a, Lower(a, before), keyword, Lower(a, rest));
    KeywordSignalMeans(a, v.keywords, Lower(a, intent), "keyword:" + keyword);
  }

  lemma {:induction false} CommandPatternFound(a: Alphabet, commands: seq<string>, sig: string, k: nat)
    requires k < |commands| && sig == "command:" + Strip(a, commands[k])
    ensures var pattern := CommandPattern(a, commands, sig);
            pattern.Some? && pattern.value in commands && sig == "command:" + Strip(a, pattern.value)
  {
    if sig != "command:" + Strip(a, commands[0]) {
      CommandPatternFound(a, commands[1..], sig, k - 1);
    }
  }

  lemma CommandStandsCovered(v: Vocabulary, intent: string, pattern: string, before: string, rest: string)
    requires Sane(v) && pattern in v.commands && intent == before + pattern + rest
    ensures Covers(v, intent, "command:" + Strip(v.chars, pattern))
  {
    assert At(Lower(v.chars, pattern), 0, pattern);
    CommandSignalMeans(v.chars, v.commands, pattern, "command:" + Strip(v.chars, pattern));
    var k :| 0 <= k < |v.commands| && v.commands[k] == pattern;
    CommandIsCovered(v, before, pattern, rest, "command:" + Strip(v.chars, pattern));
  }

  lemma AnySignal(v: Vocabulary, path: Option<string>, diff: string, sig: string)
    requires sig in ActionSignals(v, path, diff)
    ensures
      || (!HasPath(path) && exists k :: 0 <= k < |v.keywords| && sig == "keyword:" + v.keywords[k])
      || (exists k :: 0 <= k < |v.commands| && sig == "command:" + Strip(v.chars, v.commands[k]))
      || (HasPath(path) && PathSignal(v, path.value) == Some(sig))
  {
    assert Lower(v.chars, "") == "";
    NoKeywordsInNothing(v.chars, v.keywords, sig);
    KeywordSignalMeans(v.chars, v.keywords, Lower(v.chars, "" + " " + diff), sig);
    CommandSignalMeans(v.chars, v.commands, diff, sig);
  }

  lemma QuoteAvoids(path: string)
    requires exists q :: IsQuote(q) && q !in path
    ensures IsQuote(QuoteFor(path)) && QuoteFor(path) !in path
  {
  }

  lemma CommandKind(fragment: string)
    ensures HasKind("command:" + fragment, "command:") && !HasKind("command:" + fragment, "path:")
  {
    var s := "command:" + fragment;
    assert s[..8] == "command:";
    assert s[..5] == "comma";
  }

  lemma {:induction false} GlobKind(a: Alphabet, globs: seq<string>, path: string)
    ensures FirstGlob(a, globs, path).Some? ==> HasKind(FirstGlob(a, globs, path).value, "path:")
  {
    if globs != [] {
      var s := "path:" + globs[0];
      assert s[..5] == "path:";
      GlobKind(a, globs[1..], path);
    }
  }

  lemma RunIsNoEdit(text: string)
    ensures !IsEdit("run " + text)
  {
    assert ("run " + text)[0] == 'r';
  }

  lemma OnlyOneEdit(v: Vocabulary, path: Option<string>, diff: string, sig: string)
    requires HasPath(path) && sig in ActionSignals(v, path, diff) && IsEdit(Part(v, sig, path))
    ensures Part(v, sig, path) == "edit " + Quoted(path.value)
  {
    AnySignal(v, path, diff, sig);
    if PathSignal(v, path.value) != Some(sig) {
      var k :| 0 <= k < |v.commands| && sig == "command:" + Strip(v.chars, v.commands[k]);
      CommandKind(Strip(v.chars, v.commands[k]));
      RunIsNoEdit(Quoted(CommandText(v, sig)));
    } else {
      GlobKind(v.chars, v.globs, Slashed(path.value));
    }
  }

  lemma EditPart(v: Vocabulary, path: Option<string>, sig: string)
    requires HasPath(path) && PathSignal(v, path.value) == Some(sig)
    ensures Part(v, sig, path) == "edit " + Quoted(path.value) && IsEdit("edit " + Quoted(path.value))
  {
    GlobKind(v.chars, v.globs, Slashed(path.value));
    assert ("edit " + Quoted(path.value))[..5] == "edit ";
  }

  lemma LeadingPath(intent: string, path: string, rest: string)
    requires (exists q :: IsQuote(q) && q !in path) && intent == "edit " + Quoted(path) + rest
    ensures QuotesPath(intent, path)
  {
    QuoteAvoids(path);
    var q := QuoteFor(path);
    assert intent == "edit " + [q] + path + [q] + rest;
    assert QuotesAt(intent, path, "edit ", q, rest);
  }

  /** The suggestion leads with the quoted path, so it is read back whole. */
  lemma SuggestedPath(v: Vocabulary, uncovered: seq<string>, path: Option<string>, diff: string, sig: string)
    requires HasPath(path) && (exists q :: IsQuote(q) && q !in path.value)
    requires (forall other :: other in uncovered ==> other in ActionSignals(v, path, diff)) && sig in uncovered
    requires PathSignal(v, path.value) == Some(sig)
    ensures Covers(v, Suggested(v, uncovered, path), sig)
  {
    var parts, part := Parts(v, uncovered, path), "edit " + Quoted(path.value);
    PartsHold(v, uncovered, path);
    EditPart(v, path, sig);
    forall other | other in parts && IsEdit(other) ensures other == part {
      var from :| from in uncovered && other == Part(v, from, path);
      OnlyOneEdit(v, path, diff, from);
    }
    var rest := EditStandsFirst(parts, part);
    LeadingPath(Joined(EditsFirst(parts)), path.value, rest);
    PathIsCovered(v, Joined(EditsFirst(parts)), path.value, sig);
  }

  lemma PartIsJoined(v: Vocabulary, uncovered: seq<string>, path: Option<string>, sig: string)
    returns (before: string, rest: string)
    requires sig in uncovered
    ensures Stands(Suggested(v, uncovered, path), Part(v, sig, path), before, rest)
  {
    var parts := Parts(v, uncovered, path);
    PartsHold(v, uncovered, path);
    OnlyHolds(parts, true);
    OnlyHolds(parts, false);
    before, rest := PartStands(EditsFirst(parts), Part(v, sig, path));
  }

  /** The configured fragment a command's part quotes. */
  lemma RunPart(v: Vocabulary, path: Option<string>, sig: string, k: nat) returns (pattern: string)
    requires k < |v.commands| && sig == "command:" + Strip(v.chars, v.commands[k])
    ensures pattern in v.commands && sig == "command:" + Strip(v.chars, pattern)
    ensures pattern != "" ==> Part(v, sig, path) == "run " + Quoted(pattern)
  {
    CommandKind(Strip(v.chars, v.commands[k]));
    CommandPatternFound(v.chars, v.commands, sig, k);
    pattern := CommandPattern(v.chars, v.commands, sig).value;
  }

  lemma SuggestedCommand(v: Vocabulary, uncovered: seq<string>, path: Option<string>, sig: string, k: nat)
    requires Sane(v) && sig in uncovered && k < |v.commands| && sig == "command:" + Strip(v.chars, v.commands[k])
    ensures Covers(v, Suggested(v, uncovered, path), sig)
  {
    var before, rest := PartIsJoined(v, uncovered, path, sig);
    var pattern := RunPart(v, path, sig, k);
    RunStandsCovered(v, Suggested(v, uncovered, path), pattern, before, rest, Part(v, sig, path));
  }

  lemma RunStandsCovered(v: Vocabulary, intent: string, pattern: string, before: string, rest: string, part: string)
    requires Sane(v) && pattern in v.commands && intent == before + part + rest
    requires pattern != "" ==> part == "run " + Quoted(pattern)
    ensures Covers(v, intent, "command:" + Strip(v.chars, pattern))
  {
    if pattern == "" {
      assert intent == "" + "" + intent;
      CommandStandsCovered(v, intent, pattern, "", intent);
    } else {
      var q := QuoteFor(pattern);
      RunQuotes(intent, pattern, q, before, rest);
      CommandStandsCovered(v, intent, pattern, before + "run " + [q], [q] + rest);
    }
  }

  lemma RunQuotes(intent: string, pattern: string, q: char, before: string, rest: string)
    requires intent == before + ("run " + ([q] + pattern + [q])) + rest
    ensures intent == (before + "run " + [q]) + pattern + ([q] + rest)
  {
  }

  lemma SuggestedKeyword(v: Vocabulary, uncovered: seq<string>, path: Option<string>, keyword: string)
    requires Sane(v) && "keyword:" + keyword in uncovered && keyword in v.keywords && WordEnds(v.chars, keyword)
    ensures Covers(v, Suggested(v, uncovered, path), "keyword:" + keyword)
  {
    var before, rest := PartIsJoined(v, uncovered, path, "keyword:" + keyword);
    ValueOfKeyword(keyword);
    KeywordStands(v, Suggested(v, uncovered, path), keyword, before, rest);
  }

  /**
  The suggested intent covers every uncovered signal, if the path avoids one of the quote characters and
  the configured keywords begin and end with word characters.
  */
  lemma SuggestionCovers(v: Vocabulary, uncovered: seq<string>, path: Option<string>, diff: string, sig: string)
    requires Sane(v) && (forall keyword :: keyword in v.keywords ==> WordEnds(v.chars, keyword))
    requires HasPath(path) ==> exists q :: IsQuote(q) && q !in path.value
    requires (forall other :: other in uncovered ==> other in ActionSignals(v, path, diff)) && sig in uncovered
    ensures Covers(v, Suggested(v, uncovered, path), sig)
  {
    AnySignal(v, path, diff, sig);
    if k :| 0 <= k < |v.commands| && sig == "command:" + Strip(v.chars, v.commands[k]) {
      SuggestedCommand(v, uncovered, path, sig, k);
    } else if HasPath(path) {
      SuggestedPath(v, uncovered, path, diff, sig);
    } else {
      var k :| 0 <= k < |v.keywords| && sig == "keyword:" + v.keywords[k];
      SuggestedKeyword(v, uncovered, path, v.keywords[k]);
    }
  }

  /**
  Without that condition the promise fails: when a keyword is the only uncovered signal, the suggestion is
  the keyword alone, and covers it if and only if it begins and ends with word characters.
  */
  lemma KeywordAloneCovered(v: Vocabulary, path: Option<string>, keyword: string)
    requires Sane(v) && keyword in v.keywords
    ensures Suggested(v, ["keyword:" + keyword], path) == keyword
    ensures Covers(v, keyword, "keyword:" + keyword) <==> WordEnds(v.chars, keyword)
  {
    var sig, a := "keyword:" + keyword, v.chars;
    KeywordAlone(v, path, keyword);
    KeywordSignalMeans(a, v.keywords, keyword, sig);
    if HasKeyword(a, keyword, keyword) {
      var i: nat :| i <= |keyword| && KeywordAt(a, keyword, i, keyword);
      assert i == 0;
    }
    if WordEnds(a, keyword) {
      KeywordBetween(a, "", keyword, "");
      assert "" + keyword + "" == keyword;
    }
    SameKeyword(v, keyword);
    OnlyKeywordSignal(v, keyword, keyword);
  }

  lemma KeywordAlone(v: Vocabulary, path: Option<string>, keyword: string)
    ensures Suggested(v, ["keyword:" + keyword], path) == keyword
  {
    OnlyKeyword(v, ["keyword:" + keyword], path, keyword);
  }

  /** The suggestion for one keyword, however often it is listed. */
  lemma OnlyKeyword(v: Vocabulary, signals: seq<string>, path: Option<string>, keyword: string)
    requires signals != [] && forall sig :: sig in signals ==> sig == "keyword:" + keyword
    ensures Suggested(v, signals, path) == keyword
  {
    ValueOfKeyword(keyword);
    OnePart(v, signals, path, "keyword:" + keyword);
    assert [keyword][1..] == [] && Only([], true) == Only([], false) == [];
    assert EditsFirst([keyword]) == [keyword];
  }

  lemma {:induction false} OnePart(v: Vocabulary, signals: seq<string>, path: Option<string>, only: string)
    requires signals != [] && forall sig :: sig in signals ==> sig == only
    ensures Parts(v, signals, path) == [Part(v, only, path)]
    decreases |signals|
  {
    var init := signals[..|signals| - 1];
    assert signals[|signals| - 1] in signals;
    if init == [] {
      assert Parts(v, init, path) == [];
    } else {
      assert forall i :: 0 <= i < |init| ==> init[i] == signals[i] && signals[i] in signals;
      OnePart(v, init, path, only);
    }
  }

  /** A keyword's signal comes from nothing but the keyword search. */
  lemma OnlyKeywordSignal(v: Vocabulary, intent: string, keyword: string)
    ensures Covers(v, intent, "keyword:" + keyword) <==>
            "keyword:" + keyword in KeywordSignals(v.chars, v.keywords, Lower(v.chars, intent))
  {
    NoCommand(v, intent, "keyword:" + keyword);
    forall i | 0 <= i < |Candidates(v.chars, intent)|
      ensures PathSignal(v, Candidates(v.chars, intent)[i]) != Some("keyword:" + keyword)
    {
      NoPath(v, Candidates(v.chars, intent)[i], keyword);
    }
  }

  lemma NoCommand(v: Vocabulary, intent: string, sig: string)
    requires sig != "" && sig[0] == 'k'
    ensures sig !in CommandSignals(v.chars, v.commands, intent)
  {
    CommandSignalMeans(v.chars, v.commands, intent, sig);
    forall k | 0 <= k < |v.commands| ensures sig != "command:" + Strip(v.chars, v.commands[k]) {
      assert ("command:" + Strip(v.chars, v.commands[k]))[0] == 'c';
    }
  }

  lemma NoPath(v: Vocabulary, path: string, keyword: string)
    ensures PathSignal(v, path) != Some("keyword:" + keyword)
  {
    GlobKind(v.chars, v.globs, Slashed(path));
    assert ("keyword:" + keyword)[0] == 'k';
  }

  // ---- Exactly when the advice works -----------------------------------------------------------------

  /** Some word character is its own lower case, as any lower-case letter is. */
  ghost predicate HasWords(a: Alphabet) {
    exists c :: a.word(c) && a.lower(c) == c
  }

  /** For every action without a path and every coverage, the advice covers all that is uncovered. */
  ghost predicate AdviceWorks(v: Vocabulary) {
    forall diff, coverage: set<string>, sig :: AdviceCoversSignal(v, diff, coverage, sig)
  }

  ghost predicate AdviceCoversSignal(v: Vocabulary, diff: string, coverage: set<string>, sig: string) {
    var uncovered := Uncovered(ActionSignals(v, None, diff), coverage);
    sig in uncovered ==> Covers(v, Suggested(v, uncovered, None), sig)
  }

  /** The advice works if and only if every configured keyword begins and ends with a word character. */
  lemma AdviceWorksExactly(v: Vocabulary)
    requires Sane(v) && HasWords(v.chars)
    ensures AdviceWorks(v) <==> forall keyword :: keyword in v.keywords ==> WordEnds(v.chars, keyword)
  {
    if forall keyword :: keyword in v.keywords ==> WordEnds(v.chars, keyword) {
      forall diff, coverage: set<string>, sig ensures AdviceCoversSignal(v, diff, coverage, sig) {
        var signals := ActionSignals(v, None, diff);
        UncoveredMeans(signals, coverage);
        if sig in Uncovered(signals, coverage) {
          SuggestionCovers(v, Uncovered(signals, coverage), None, diff, sig);
        }
      }
    } else {
      var keyword :| keyword in v.keywords && !WordEnds(v.chars, keyword);
      var diff, coverage := BadAdvice(v, keyword);
      assert !AdviceCoversSignal(v, diff, coverage, "keyword:" + keyword);
    }
  }

  /** A content that contains the keyword between word boundaries, whatever the keyword. */
  lemma Governing(v: Vocabulary, keyword: string) returns (diff: string)
    requires Sane(v) && HasWords(v.chars) && keyword in v.keywords
    ensures "keyword:" + keyword in ActionSignals(v, None, diff)
  {
    var a := v.chars;
    var c :| a.word(c) && a.lower(c) == c;
    var first := if keyword == "" || !a.word(keyword[0]) then [c] else "";
    var last := if keyword != "" && !a.word(keyword[|keyword| - 1]) then [c] else "";
    diff := first + keyword + last;
    LowerSurrounded(v, first, keyword, last);
    var text := Lower(a, "" + " " + diff);
    Between(a, " " + first, keyword, last);
    KeywordSignalMeans(a, v.keywords, text, "keyword:" + keyword);
  }

  lemma LowerSurrounded(v: Vocabulary, first: string, keyword: string, last: string)
    requires Sane(v) && keyword in v.keywords && Lower(v.chars, first) == first && Lower(v.chars, last) == last
    ensures Lower(v.chars, "" + " " + (first + keyword + last)) == (" " + first) + keyword + last
  {
    var a := v.chars;
    assert "" + " " + (first + keyword + last) == (" " + first + keyword) + last;
    LowerParts(a, " " + first + keyword, last);
    LowerParts(a, " " + first, keyword);
    LowerParts(a, " ", first);
    assert Lower(a, " ") == " ";
  }

  /** A keyword is found between a beginning and an end that both make a word boundary with it. */
  lemma Between(a: Alphabet, before: string, keyword: string, after: string)
    requires before != ""
    requires if keyword == "" then a.word(before[|before| - 1]) && after == ""
             else a.word(before[|before| - 1]) != a.word(keyword[0])
    requires keyword != "" ==> (after == "" && a.word(keyword[|keyword| - 1])) ||
                               (after != "" && a.word(keyword[|keyword| - 1]) != a.word(after[0]))
    ensures HasKeyword(a, before + keyword + after, keyword)
  {
    var text, n, m := before + keyword + after, |before|, |before| + |keyword|;
    assert text[n - 1] == before[n - 1];
    assert text[n..m] == keyword;
    if keyword != "" {
      assert text[n] == keyword[0] && text[m - 1] == keyword[|keyword| - 1];
    }
    assert after != "" ==> text[m] == after[0];
    assert KeywordAt(a, text, n, keyword);
  }

  /** A keyword without word ends: an action it governs, and a coverage of all the action's other signals. */
  lemma BadAdvice(v: Vocabulary, keyword: string) returns (diff: string, coverage: set<string>)
    requires Sane(v) && HasWords(v.chars) && keyword in v.keywords && !WordEnds(v.chars, keyword)
    ensures !AdviceCoversSignal(v, diff, coverage, "keyword:" + keyword)
  {
    var sig := "keyword:" + keyword;
    diff := Governing(v, keyword);
    var signals := ActionSignals(v, None, diff);
    coverage := set s | s in signals && s != sig;
    var uncovered := Uncovered(signals, coverage);
    UncoveredMeans(signals, coverage);
    KeywordUncleared(coverage, keyword);
    forall s | s in coverage ensures Cleared(coverage, s) {
      assert Family(s) in Families(coverage);
    }
    assert forall s :: s in uncovered ==> s !in coverage && s in signals;
    assert sig in uncovered;
    OnlyKeyword(v, uncovered, None, keyword);
    KeywordAloneCovered(v, None, keyword);
  }

  /** Nothing but itself clears a keyword signal. */
  lemma KeywordUncleared(coverage: set<string>, keyword: string)
    requires "keyword:" + keyword !in coverage
    ensures !Cleared(coverage, "keyword:" + keyword)
  {
    var sig := "keyword:" + keyword;
    assert sig[0] == 'k';
    forall c | c in coverage ensures Family(c) != sig {
      if |c| >= 7 && c[..7] == "path:*/" {
        assert ("path:" + c[7..])[0] == 'p';
      }
    }
    assert forall s :: s in DEPENDENCY_FAMILIES ==> s[0] != 'k';
  }

  /** An operator who governs `c++`: the action below is denied, and following the advice does not clear it. */
  lemma AdviceThatDoesNotClear(v: Vocabulary, keyword: string)
    requires v == PlusPlus() && keyword == "c++"
    ensures "keyword:" + keyword in ActionSignals(v, None, "use c++x")
    ensures !Covers(v, Suggested(v, ["keyword:" + keyword], None), "keyword:" + keyword)
  {
    PlusPlusIsGoverned(v, keyword);
    assert Lower(v.chars, keyword) == keyword;
    KeywordAloneCovered(v, None, keyword);
  }

  /** A vocabulary of one keyword, over lower-case letters. */
  function PlusPlus(): Vocabulary {
    Vocabulary(["c++"], [], [], Alphabet(c => c, c => 'a' <= c <= 'z', c => c == ' ', (path, glob) => path == glob))
  }

  lemma PlusPlusIsGoverned(v: Vocabulary, keyword: string)
    requires v == PlusPlus() && keyword == "c++"
    ensures "keyword:" + keyword in ActionSignals(v, None, "use c++x")
  {
    var text := Lower(v.chars, "" + " " + "use c++x");
    assert text == " use c++x";
    assert At(text, 5, keyword) && Boundary(v.chars, text, 5) && Boundary(v.chars, text, 8);
    assert KeywordAt(v.chars, text, 5, keyword);
    assert v.keywords[0] == keyword;
    KeywordSignalMeans(v.chars, v.keywords, text, "keyword:" + keyword);
  }

  lemma SameKeyword(v: Vocabulary, keyword: string)
    ensures forall k :: 0 <= k < |v.keywords| && "keyword:" + keyword == "keyword:" + v.keywords[k] ==>
              keyword == v.keywords[k]
  {
    forall k | 0 <= k < |v.keywords| && "keyword:" + keyword == "keyword:" + v.keywords[k]
      ensures keyword == v.keywords[k] {
      assert ("keyword:" + keyword)[8..] == keyword && ("keyword:" + v.keywords[k])[8..] == v.keywords[k];
    }
  }
}
