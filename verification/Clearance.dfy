/**
Clearing a governed action (src/data_olympus/enforce_policy.py:63-111 and tools_enforce.py:64-91): which
consults cover its signals, and why naming its path and content always does.
*/
module Clearance {
  import opened Common
  import opened Classifier

  const DEPENDENCY := ["dependency", "dependencies", "package", "library"]
  const MIGRATION := ["migration", "migrate", "schema"]
  const SCHEMA := ["schema", "migration", "migrate"]

  const DEPENDENCY_FAMILIES := {
    "path:pyproject.toml", "path:package.json", "path:requirements*.txt", "path:go.mod", "path:Cargo.toml",
    "path:pom.xml",
    "command:pip install", "command:pip3 install", "command:uv add", "command:uv pip install", "command:poetry add",
    "command:npm install", "command:npm i", "command:yarn add", "command:pnpm add", "command:apt install",
    "command:apt-get install", "command:brew install", "command:go get", "command:cargo add", "command:gem install",
    "command:bundle add"
  }

  /** `SIGNAL_FAMILY_COVERAGE`: the keywords that cover a family. */
  function FamilyKeywords(family: string): seq<string> {
    if family in DEPENDENCY_FAMILIES then DEPENDENCY
    else if family in {"path:migrations/*", "path:migration/*"} then MIGRATION
    else if family in {"path:schema/*", "path:schema.sql", "path:*.sql"} then SCHEMA
    else []
  }

  /** `signal_family`: a path glob without one leading `*` and slash. */
  function Family(sig: string): string {
    if |sig| >= 7 && sig[..7] == "path:*/" then "path:" + sig[7..] else sig
  }

  /** A glob below any directory and the same glob alone are one family; every other signal is its own. */
  lemma FamilyMeans(sig: string, glob: string)
    ensures sig == "path:*/" + glob ==> Family(sig) == "path:" + glob
    ensures Family(sig) != sig ==> exists g :: sig == "path:*/" + g
  {
    if |sig| >= 7 && sig[..7] == "path:*/" {
      assert sig == "path:*/" + sig[7..];
    }
    assert ("path:*/" + glob)[..7] == "path:*/" && ("path:*/" + glob)[7..] == glob;
  }

  function Families(coverage: set<string>): set<string> {
    set c | c in coverage :: Family(c)
  }

  predicate Cleared(coverage: set<string>, sig: string) {
    || Family(sig) in Families(coverage)
    || exists k :: 0 <= k < |FamilyKeywords(Family(sig))| &&
                   "keyword:" + FamilyKeywords(Family(sig))[k] in Families(coverage)
  }

  function Uncovered(signals: seq<string>, coverage: set<string>): seq<string>
    decreases |signals|
  {
    if signals == [] then []
    else Uncovered(signals[..|signals| - 1], coverage)
         + (if Cleared(coverage, signals[|signals| - 1]) then [] else [signals[|signals| - 1]])
  }

  /** `uncovered_signals`. */
  method UncoveredSignals(signals: seq<string>, coverage: set<string>) returns (out: seq<string>)
    ensures out == Uncovered(signals, coverage)
  {
    var families := Families(coverage);
    out := [];
    for i := 0 to |signals|
      invariant out == Uncovered(signals[..i], coverage)
    {
      assert signals[..i + 1][..i] == signals[..i];
      var fam := Family(signals[i]);
      if fam in families {
        continue;
      }
      var keywords := FamilyKeywords(fam);
      if exists k :: 0 <= k < |keywords| && "keyword:" + keywords[k] in families {
        continue;
      }
      out := out + [signals[i]];
    }
    assert signals[..|signals|] == signals;
  }

  /** What is left uncovered is exactly what nothing clears, and nothing is left when all is cleared. */
  lemma {:induction false} UncoveredMeans(signals: seq<string>, coverage: set<string>)
    ensures forall sig :: sig in Uncovered(signals, coverage) <==> sig in signals && !Cleared(coverage, sig)
    ensures Uncovered(signals, coverage) == [] <==> forall sig :: sig in signals ==> Cleared(coverage, sig)
    decreases |signals|
  {
    if signals != [] {
      UncoveredMeans(signals[..|signals| - 1], coverage);
      assert signals == signals[..|signals| - 1] + [signals[|signals| - 1]];
    }
  }

  // ---- What a word clears ------------------------------------------------------------------------------

  /**
  Words about dependencies go with manifests and installing commands, words about migrations or schemas with
  either.
  */
  predicate Topic(word: string, family: string) {
    || (word in {"dependency", "dependencies", "package", "library"}
        && family in {
             "path:pyproject.toml", "path:package.json", "path:requirements*.txt", "path:go.mod", "path:Cargo.toml",
             "path:pom.xml", "command:pip install", "command:pip3 install", "command:uv add", "command:uv pip install",
             "command:poetry add", "command:npm install", "command:npm i", "command:yarn add", "command:pnpm add",
             "command:apt install", "command:apt-get install", "command:brew install", "command:go get",
             "command:cargo add", "command:gem install", "command:bundle add"
           })
    || (word in {"migration", "migrate", "schema"}
        && family in {
             "path:migrations/*", "path:migration/*", "path:schema/*", "path:schema.sql", "path:*.sql"
           })
  }

  lemma TopicKeywords(word: string, family: string)
    ensures word in FamilyKeywords(family) <==> Topic(word, family)
  {
  }

  /** A keyword clears itself and the families of its topic, and nothing else. */
  lemma WordClearsExactly(word: string, sig: string)
    ensures Cleared({"keyword:" + word}, sig) <==> sig == "keyword:" + word || Topic(word, Family(sig))
  {
    var clearing := "keyword:" + word;
    OwnFamily(word, sig);
    assert Families({clearing}) == {clearing};
    AmongKeywords(FamilyKeywords(Family(sig)), word);
    TopicKeywords(word, Family(sig));
  }

  /** A keyword signal is its own family, and no other signal's. */
  lemma OwnFamily(word: string, sig: string)
    ensures Family("keyword:" + word) == "keyword:" + word
    ensures Family(sig) == "keyword:" + word <==> sig == "keyword:" + word
  {
    assert ("keyword:" + word)[0] == 'k';
    if |sig| >= 7 && sig[..7] == "path:*/" {
      assert sig[0] == sig[..7][0] == 'p';
      assert ("path:" + sig[7..])[0] == 'p';
    }
  }

  lemma AmongKeywords(keywords: seq<string>, word: string)
    ensures (exists k :: 0 <= k < |keywords| && "keyword:" + keywords[k] == "keyword:" + word) <==> word in keywords
  {
    forall k | 0 <= k < |keywords| ensures "keyword:" + keywords[k] == "keyword:" + word ==> keywords[k] == word {
      assert ("keyword:" + keywords[k])[8..] == keywords[k] && ("keyword:" + word)[8..] == word;
    }
  }

  // ---- A quoted path is read back whole -------------------------------------------------------------

  /** The first quote of an intent opens a span that ends at its next occurrence. */
  lemma QuotedIsSpan(before: string, q: char, path: string, rest: string)
    requires Unquoted(before) && IsQuote(q) && path != "" && q !in path
    ensures path in Spans(before + [q] + path + [q] + rest)
  {
    var tail := [q] + path + [q] + rest;
    assert before + [q] + path + [q] + rest == before + tail;
    SpansBehind(before, tail);
    Closed(q, path, rest);
  }

  // ---- Text that is contained keeps its signals -----------------------------------------------------

  lemma LowerParts(a: Alphabet, x: string, y: string)
    ensures Lower(a, x + y) == Lower(a, x) + Lower(a, y)
  {
  }

  lemma CommandStays(a: Alphabet, before: string, part: string, rest: string, pattern: string)
    requires Contains(Lower(a, part), pattern)
    ensures Contains(Lower(a, before + part + rest), pattern)
  {
    LowerParts(a, before + part, rest);
    LowerParts(a, before, part);
    var small, large := Lower(a, part), Lower(a, before + part + rest);
    var i: nat :| i <= |small| && At(small, i, pattern);
    assert large[|before| + i..|before| + i + |pattern|] == small[i..i + |pattern|];
    assert At(large, |before| + i, pattern);
  }

  /** A stretch of text between two positions that no word crosses keeps its keywords. */
  lemma KeywordStays(a: Alphabet, before: string, part: string, rest: string, keyword: string)
    requires HasKeyword(a, part, keyword)
    requires part != "" && !a.word(part[0])
    requires rest == "" || !a.word(rest[0])
    ensures HasKeyword(a, before + part + rest, keyword)
  {
    var i: nat :| i <= |part| && KeywordAt(a, part, i, keyword);
    assert i > 0;
    BoundaryStays(a, before, part, rest, i);
    BoundaryStays(a, before, part, rest, i + |keyword|);
    var large := before + part + rest;
    assert large[|before| + i..|before| + i + |keyword|] == part[i..i + |keyword|];
    assert KeywordAt(a, large, |before| + i, keyword);
  }

  /** A word boundary inside or behind the stretch stays one. */
  lemma BoundaryStays(a: Alphabet, before: string, part: string, rest: string, i: nat)
    requires 0 < i <= |part| && (rest == "" || !a.word(rest[0]))
    ensures Boundary(a, before + part + rest, |before| + i) == Boundary(a, part, i)
  {
  }

  // ---- Naming an action -------------------------------------------------------------------------------

  /** The intent's first quotes enclose the path. */
  ghost predicate QuotesPath(intent: string, path: string) {
    exists before, q, rest :: QuotesAt(intent, path, before, q, rest)
  }

  predicate QuotesAt(intent: string, path: string, before: string, q: char, rest: string) {
    Unquoted(before) && IsQuote(q) && q !in path && intent == before + [q] + path + [q] + rest
  }

  /** The intent contains the text, after a space, and no word runs on behind it. */
  ghost predicate QuotesText(v: Vocabulary, intent: string, diff: string) {
    exists before, rest :: TextAt(v, intent, diff, before, rest)
  }

  predicate TextAt(v: Vocabulary, intent: string, diff: string, before: string, rest: string) {
    intent == before + (" " + diff) + rest && (rest == "" || !v.chars.word(v.chars.lower(rest[0])))
  }

  /** The intent names the action: its path in quotes, if it has one, and its content. */
  ghost predicate Names(v: Vocabulary, intent: string, path: Option<string>, diff: string) {
    if HasPath(path) then QuotesPath(intent, path.value) && exists before, rest :: intent == before + diff + rest
    else QuotesText(v, intent, diff)
  }

  lemma PathIsCovered(v: Vocabulary, intent: string, path: string, sig: string)
    requires QuotesPath(intent, path) && path != "" && PathSignal(v, path) == Some(sig)
    ensures Covers(v, intent, sig)
  {
    var before, q, rest :| QuotesAt(intent, path, before, q, rest);
    QuotedIsSpan(before, q, path, rest);
    var candidates := Candidates(v.chars, intent);
    assert path in candidates;
    var i :| 0 <= i < |candidates| && candidates[i] == path;
    assert PathSignal(v, Candidates(v.chars, intent)[i]) == Some(sig);
  }

  lemma CommandIsCovered(v: Vocabulary, before: string, part: string, rest: string, sig: string)
    requires sig in CommandSignals(v.chars, v.commands, part)
    ensures Covers(v, before + part + rest, sig)
  {
    CommandSignalMeans(v.chars, v.commands, part, sig);
    var k :| 0 <= k < |v.commands| && sig == "command:" + Strip(v.chars, v.commands[k]) &&
      Contains(Lower(v.chars, part), v.commands[k]);
    CommandStays(v.chars, before, part, rest, v.commands[k]);
    CommandSignalMeans(v.chars, v.commands, before + part + rest, sig);
  }

  lemma KeywordIsCovered(v: Vocabulary, before: string, part: string, rest: string, sig: string)
    requires Sane(v) && sig in KeywordSignals(v.chars, v.keywords, Lower(v.chars, " " + part))
    requires rest == "" || !v.chars.word(v.chars.lower(rest[0]))
    ensures Covers(v, before + (" " + part) + rest, sig)
  {
    var a, text := v.chars, Lower(v.chars, " " + part);
    KeywordSignalMeans(a, v.keywords, text, sig);
    var k :| 0 <= k < |v.keywords| && sig == "keyword:" + v.keywords[k] && HasKeyword(a, text, v.keywords[k]);
    assert text[0] == a.lower(' ') == ' ';
    KeywordStays(a, Lower(a, before), text, Lower(a, rest), v.keywords[k]);
    LowerParts(a, before + (" " + part), rest);
    LowerParts(a, before, " " + part);
    KeywordSignalMeans(a, v.keywords, Lower(a, before + (" " + part) + rest), sig);
  }

  lemma NoKeywordsInNothing(a: Alphabet, keywords: seq<string>, sig: string)
    ensures sig !in KeywordSignals(a, keywords, "")
  {
  }

  /** The gate classifies an action without any intent. */
  function ActionSignals(v: Vocabulary, path: Option<string>, diff: string): seq<string> {
    Classify(v, "", path, diff)
  }

  /** Where a signal of an action comes from. */
  lemma SignalOf(v: Vocabulary, path: Option<string>, diff: string, sig: string)
    ensures sig in ActionSignals(v, path, diff) <==>
            sig in CommandSignals(v.chars, v.commands, diff)
            || if HasPath(path) then PathSignal(v, path.value) == Some(sig)
               else sig in KeywordSignals(v.chars, v.keywords, Lower(v.chars, " " + diff))
  {
    var a, commands := v.chars, CommandSignals(v.chars, v.commands, diff);
    if HasPath(path) {
      assert Lower(a, "") == "";
      NoKeywordsInNothing(a, v.keywords, sig);
      InEither(KeywordSignals(a, v.keywords, Lower(a, "")), commands, PathSignals(v, path.value), sig);
    } else {
      assert "" + " " + diff == " " + diff;
      InEither(KeywordSignals(a, v.keywords, Lower(a, " " + diff)), commands, [], sig);
    }
  }

  lemma InEither(x: seq<string>, y: seq<string>, z: seq<string>, sig: string)
    ensures sig in x + y + z <==> sig in x || sig in y || sig in z
  {
  }

  lemma NamingPathCovers(v: Vocabulary, intent: string, path: Option<string>, diff: string, sig: string)
    requires HasPath(path) && Names(v, intent, path, diff)
    requires sig in CommandSignals(v.chars, v.commands, diff) || PathSignal(v, path.value) == Some(sig)
    ensures Covers(v, intent, sig)
  {
    if sig in CommandSignals(v.chars, v.commands, diff) {
      var before, rest :| intent == before + diff + rest;
      CommandIsCovered(v, before, diff, rest, sig);
    } else {
      PathIsCovered(v, intent, path.value, sig);
    }
  }

  lemma NamingTextCovers(v: Vocabulary, intent: string, diff: string, sig: string)
    requires Sane(v) && QuotesText(v, intent, diff)
    requires sig in KeywordSignals(v.chars, v.keywords, Lower(v.chars, " " + diff)) ||
             sig in CommandSignals(v.chars, v.commands, diff)
    ensures Covers(v, intent, sig)
  {
    var before, rest :| TextAt(v, intent, diff, before, rest);
    if sig in CommandSignals(v.chars, v.commands, diff) {
      assert intent == (before + " ") + diff + rest;
      CommandIsCovered(v, before + " ", diff, rest, sig);
    } else {
      KeywordIsCovered(v, before, diff, rest, sig);
    }
  }

  /** Every governed action is clearable: an intent that names it covers each of its signals. */
  lemma NamingCovers(v: Vocabulary, intent: string, path: Option<string>, diff: string, sig: string)
    requires Sane(v) && Names(v, intent, path, diff) && sig in ActionSignals(v, path, diff)
    ensures Covers(v, intent, sig)
  {
    SignalOf(v, path, diff, sig);
    if HasPath(path) {
      NamingPathCovers(v, intent, path, diff, sig);
    } else {
      NamingTextCovers(v, intent, diff, sig);
    }
  }

  /** The path in quotes, if there is one, and the content after a space. */
  function NamingIntent(path: Option<string>, diff: string, q: char): string {
    if HasPath(path) then [q] + path.value + [q] + (" " + diff) else " " + diff
  }

  /** Such an intent exists whenever the path avoids one of the three quote characters. */
  lemma NamingExists(v: Vocabulary, path: Option<string>, diff: string, q: char)
    requires HasPath(path) ==> IsQuote(q) && q !in path.value
    ensures Names(v, NamingIntent(path, diff, q), path, diff)
  {
    var intent := NamingIntent(path, diff, q);
    if HasPath(path) {
      assert intent == "" + [q] + path.value + [q] + (" " + diff);
      assert QuotesAt(intent, path.value, "", q, " " + diff);
      assert intent == ([q] + path.value + [q] + " ") + diff + "";
    } else {
      assert intent == "" + (" " + diff) + "";
      assert TextAt(v, intent, diff, "", "");
    }
  }

  // ---- What governs an action --------------------------------------------------------------------------

  /**
  Why an action has a signal: a command fragment of its content; and the first glob its path matches or, if it
  has none, a keyword of its content.
  */
  ghost predicate Governs(v: Vocabulary, path: Option<string>, diff: string, sig: string) {
    || (exists k :: CommandGoverns(v, diff, k) && sig == "command:" + Strip(v.chars, v.commands[k]))
    || (path.Some? && path.value != "" && exists k :: FirstMatch(v, path.value, k) && sig == "path:" + v.globs[k])
    || ((path.None? || path.value == "") && exists k :: KeywordGoverns(v, diff, k) && sig == "keyword:" + v.keywords[k])
  }

  ghost predicate Governed(v: Vocabulary, path: Option<string>, diff: string) {
    exists sig :: Governs(v, path, diff, sig)
  }

  lemma LeadingSpace(a: Alphabet, text: string, keyword: string)
    requires !a.word(' ')
    ensures HasKeyword(a, " " + text, keyword) <==> HasKeyword(a, text, keyword)
  {
    if i: nat :| i <= |text| && KeywordAt(a, text, i, keyword) {
      Shifted(a, text, keyword, i);
      assert KeywordAt(a, " " + text, i + 1, keyword);
    }
    if i: nat :| i <= |" " + text| && KeywordAt(a, " " + text, i, keyword) {
      assert Boundary(a, " " + text, i);
      Shifted(a, text, keyword, i - 1);
    }
  }

  lemma Shifted(a: Alphabet, text: string, keyword: string, i: nat)
    requires !a.word(' ') && i <= |text|
    ensures KeywordAt(a, " " + text, i + 1, keyword) <==> KeywordAt(a, text, i, keyword)
  {
    if i + |keyword| <= |text| {
      assert (" " + text)[i + 1..i + 1 + |keyword|] == text[i..i + |keyword|];
    }
  }

  lemma CommandGovernsMeans(v: Vocabulary, diff: string, k: int)
    ensures CommandGoverns(v, diff, k) <==> 0 <= k < |v.commands| && Contains(Lower(v.chars, diff), v.commands[k])
  {
    if 0 <= k < |v.commands| {
      ContainsMeans(Lower(v.chars, diff), v.commands[k]);
    }
  }

  lemma KeywordGovernsMeans(v: Vocabulary, diff: string, k: int)
    requires Sane(v)
    ensures KeywordGoverns(v, diff, k) <==>
              0 <= k < |v.keywords| && HasKeyword(v.chars, Lower(v.chars, " " + diff), v.keywords[k])
  {
    LowerParts(v.chars, " ", diff);
    assert Lower(v.chars, " ") == " ";
    if 0 <= k < |v.keywords| {
      LeadingSpace(v.chars, Lower(v.chars, diff), v.keywords[k]);
      HasKeywordMeans(v.chars, Lower(v.chars, diff), v.keywords[k]);
    }
  }

  lemma CommandSignalsAre(v: Vocabulary, diff: string, sig: string)
    ensures sig in CommandSignals(v.chars, v.commands, diff) <==>
              exists k :: CommandGoverns(v, diff, k) && sig == "command:" + Strip(v.chars, v.commands[k])
  {
    CommandSignalMeans(v.chars, v.commands, diff, sig);
    forall k ensures CommandGoverns(v, diff, k) <==>
        0 <= k < |v.commands| && Contains(Lower(v.chars, diff), v.commands[k]) {
      CommandGovernsMeans(v, diff, k);
    }
  }

  lemma KeywordSignalsAre(v: Vocabulary, diff: string, sig: string)
    requires Sane(v)
    ensures sig in KeywordSignals(v.chars, v.keywords, Lower(v.chars, " " + diff)) <==>
              exists k :: KeywordGoverns(v, diff, k) && sig == "keyword:" + v.keywords[k]
  {
    var text := Lower(v.chars, " " + diff);
    KeywordSignalMeans(v.chars, v.keywords, text, sig);
    forall k ensures KeywordGoverns(v, diff, k) <==> 0 <= k < |v.keywords| && HasKeyword(v.chars, text, v.keywords[k]) {
      KeywordGovernsMeans(v, diff, k);
    }
  }

  /** The gate's signals of an action are exactly those. */
  lemma ActionSignalsAre(v: Vocabulary, path: Option<string>, diff: string, sig: string)
    requires Sane(v)
    ensures sig in ActionSignals(v, path, diff) <==> Governs(v, path, diff, sig)
  {
    SignalOf(v, path, diff, sig);
    CommandSignalsAre(v, diff, sig);
    if HasPath(path) {
      PathSignalMeans(v, path.value);
    } else {
      KeywordSignalsAre(v, diff, sig);
    }
  }

  lemma UngovernedMeans(v: Vocabulary, path: Option<string>, diff: string)
    requires Sane(v)
    ensures ActionSignals(v, path, diff) == [] <==> !Governed(v, path, diff)
  {
    forall sig ensures sig in ActionSignals(v, path, diff) <==> Governs(v, path, diff, sig) {
      ActionSignalsAre(v, path, diff, sig);
    }
    if ActionSignals(v, path, diff) != [] {
      assert ActionSignals(v, path, diff)[0] in ActionSignals(v, path, diff);
    }
  }
}
