/**
Short intents: to cover an action takes no more room than the vocabulary and the path, however long the
content is.
*/
module Excerpts {
  import opened Common
  import opened Classifier
  import opened Clearance
  import opened Suggestion

  /** The intent covers every signal of the action. */
  ghost predicate CoversAction(v: Vocabulary, intent: string, path: Option<string>, diff: string) {
    forall sig :: sig in ActionSignals(v, path, diff) ==> Covers(v, intent, sig)
  }

  /** Room for each fragment, with so many characters around it. */
  function Room(fragments: seq<string>, margin: nat): nat {
    if fragments == [] then 0 else |fragments[0]| + margin + Room(fragments[1..], margin)
  }

  /** Room for the keywords with a character on both sides, the commands and the quoted path. */
  function IntentRoom(v: Vocabulary, path: Option<string>): nat {
    (if HasPath(path) then |path.value| + 7 else Room(v.keywords, 4)) + Room(v.commands, 2)
  }

  // ---- Keywords --------------------------------------------------------------------------------------

  /** The keyword is found with a character on either side, which fixes both word boundaries. */
  predicate InsideAt(a: Alphabet, text: string, i: nat, keyword: string) {
    0 < i && i + |keyword| < |text| && KeywordAt(a, text, i, keyword)
  }

  predicate Inside(a: Alphabet, text: string, keyword: string) {
    exists i: nat :: i <= |text| && InsideAt(a, text, i, keyword)
  }

  lemma InsideStays(a: Alphabet, before: string, part: string, rest: string, keyword: string)
    requires Inside(a, part, keyword)
    ensures Inside(a, before + part + rest, keyword)
  {
    var i: nat :| i <= |part| && InsideAt(a, part, i, keyword);
    var large, j := before + part + rest, |before| + i;
    assert large[j - 1] == part[i - 1] && large[j] == part[i];
    assert large[j + |keyword| - 1] == part[i + |keyword| - 1] && large[j + |keyword|] == part[i + |keyword|];
    assert large[j..j + |keyword|] == part[i..i + |keyword|];
    assert InsideAt(a, large, j, keyword);
  }

  /** The found keyword with its neighbours, and a separator. */
  function Window(text: string, i: nat, j: nat): (r: string)
    requires 0 < i <= j <= |text|
    ensures |r| <= j - i + 4
  {
    [text[i - 1]] + text[i..j] + After(text, j)
  }

  /** The next character, if there is one, and a separator. */
  function After(text: string, j: nat): string
    requires j <= |text|
  {
    (if j == |text| then "" else [text[j]]) + "; "
  }

  lemma WindowKeeps(a: Alphabet, text: string, i: nat, keyword: string)
    requires 0 < i && KeywordAt(a, text, i, keyword) && !a.word(';')
    ensures Inside(a, Window(text, i, i + |keyword|), keyword)
  {
    var window, j := Window(text, i, i + |keyword|), i + |keyword|;
    var y := After(text, j);
    assert window == [text[i - 1]] + keyword + y;
    assert a.word(y[0]) <==> j < |text| && a.word(text[j]);
    SurroundedInside(a, text[i - 1], keyword, y, text, i);
  }

  lemma SurroundedInside(a: Alphabet, x: char, keyword: string, y: string, text: string, i: nat)
    requires 0 < i && KeywordAt(a, text, i, keyword) && x == text[i - 1] && |y| > 1
    requires a.word(y[0]) <==> i + |keyword| < |text| && a.word(text[i + |keyword|])
    ensures Inside(a, [x] + keyword + y, keyword)
  {
    var window, n := [x] + keyword + y, |keyword|;
    assert window[1..1 + n] == keyword;
    assert window[1 + n] == y[0];
    if n > 0 {
      assert window[1] == keyword[0] == text[i];
      assert window[n] == keyword[n - 1] == text[i + n - 1];
    }
    assert InsideAt(a, window, 1, keyword);
  }

  predicate IsLower(a: Alphabet, text: string) {
    forall i :: 0 <= i < |text| ==> a.lower(text[i]) == text[i]
  }

  lemma LowerOfLower(a: Alphabet, text: string)
    requires IsLower(a, text)
    ensures Lower(a, text) == text
  {
  }

  /** Every keyword found in the text is found inside the excerpt. */
  ghost predicate KeepsKeywords(a: Alphabet, keywords: seq<string>, text: string, excerpt: string) {
    forall keyword :: keyword in keywords && HasKeyword(a, text, keyword) ==> Inside(a, excerpt, keyword)
  }

  ghost predicate KeepsCommands(commands: seq<string>, text: string, excerpt: string) {
    forall pattern :: pattern in commands && Contains(text, pattern) ==> Contains(excerpt, pattern)
  }

  lemma {:induction false} KeywordExcerpt(a: Alphabet, keywords: seq<string>, text: string) returns (excerpt: string)
    requires text != "" && !a.word(text[0]) && !a.word(';') && IsLower(a, text) && IsLower(a, "; ")
    ensures |excerpt| <= Room(keywords, 4) && IsLower(a, excerpt)
    ensures KeepsKeywords(a, keywords, text, excerpt)
  {
    if keywords == [] {
      excerpt := "";
    } else {
      var others := KeywordExcerpt(a, keywords[1..], text);
      var window := FirstWindow(a, keywords[0], text);
      excerpt := window + others;
      forall keyword | keyword in keywords && HasKeyword(a, text, keyword) ensures Inside(a, excerpt, keyword) {
        assert keyword == keywords[0] || keyword in keywords[1..];
        InsideEither(a, window, others, keyword);
      }
    }
  }

  lemma InsideEither(a: Alphabet, first: string, others: string, keyword: string)
    requires Inside(a, first, keyword) || Inside(a, others, keyword)
    ensures Inside(a, first + others, keyword)
  {
    if Inside(a, first, keyword) {
      InsideStays(a, "", first, others, keyword);
      assert "" + first + others == first + others;
    } else {
      InsideStays(a, first, others, "", keyword);
      assert first + others + "" == first + others;
    }
  }

  lemma FirstWindow(a: Alphabet, keyword: string, text: string) returns (window: string)
    requires text != "" && !a.word(text[0]) && !a.word(';') && IsLower(a, text) && IsLower(a, "; ")
    ensures |window| <= |keyword| + 4 && IsLower(a, window)
    ensures HasKeyword(a, text, keyword) ==> Inside(a, window, keyword)
  {
    window := "";
    if HasKeyword(a, text, keyword) {
      var i: nat :| i <= |text| && KeywordAt(a, text, i, keyword);
      assert i > 0;
      WindowKeeps(a, text, i, keyword);
      window := Window(text, i, i + |keyword|);
    }
  }

  // ---- Commands --------------------------------------------------------------------------------------

  lemma ContainsStays(before: string, part: string, rest: string, pattern: string)
    requires Contains(part, pattern)
    ensures Contains(before + part + rest, pattern)
  {
    var i: nat :| i <= |part| && At(part, i, pattern);
    assert (before + part + rest)[|before| + i..|before| + i + |pattern|] == part[i..i + |pattern|];
    assert At(before + part + rest, |before| + i, pattern);
  }

  lemma {:induction false} CommandExcerpt(commands: seq<string>, text: string) returns (excerpt: string)
    ensures |excerpt| <= Room(commands, 2)
    ensures KeepsCommands(commands, text, excerpt)
  {
    if commands == [] {
      excerpt := "";
    } else {
      var others := CommandExcerpt(commands[1..], text);
      var first := FirstCommand(commands[0], text);
      excerpt := first + others;
      forall pattern | pattern in commands && Contains(text, pattern) ensures Contains(excerpt, pattern) {
        assert pattern == commands[0] || pattern in commands[1..];
        InFirstOrRest(first, others, pattern);
      }
    }
  }

  lemma FirstCommand(pattern: string, text: string) returns (first: string)
    ensures |first| <= |pattern| + 2 && (Contains(text, pattern) ==> Contains(first, pattern))
  {
    first := if Contains(text, pattern) then pattern + "; " else "";
    assert Contains(text, pattern) ==> At(first, 0, pattern);
  }

  lemma InFirstOrRest(first: string, others: string, pattern: string)
    requires Contains(first, pattern) || Contains(others, pattern)
    ensures Contains(first + others, pattern)
  {
    if Contains(first, pattern) {
      ContainsStays("", first, others, pattern);
      assert "" + first + others == first + others;
    } else {
      ContainsStays(first, others, "", pattern);
      assert first + others + "" == first + others;
    }
  }

  // ---- The intent -------------------------------------------------------------------------------------

  lemma InsideLower(a: Alphabet, excerpt: string, rest: string, keyword: string)
    requires IsLower(a, excerpt) && Inside(a, excerpt, keyword)
    ensures HasKeyword(a, Lower(a, excerpt + rest), keyword)
  {
    LowerParts(a, excerpt, rest);
    LowerOfLower(a, excerpt);
    InsideEither(a, excerpt, Lower(a, rest), keyword);
    InsideFound(a, excerpt + Lower(a, rest), keyword);
  }

  lemma InsideFound(a: Alphabet, text: string, keyword: string)
    requires Inside(a, text, keyword)
    ensures HasKeyword(a, text, keyword)
  {
  }

  lemma KeywordInside(v: Vocabulary, excerpt: string, rest: string, k: nat)
    requires k < |v.keywords| && IsLower(v.chars, excerpt) && Inside(v.chars, excerpt, v.keywords[k])
    ensures Covers(v, excerpt + rest, "keyword:" + v.keywords[k])
  {
    InsideLower(v.chars, excerpt, rest, v.keywords[k]);
    KeywordSignalMeans(v.chars, v.keywords, Lower(v.chars, excerpt + rest), "keyword:" + v.keywords[k]);
  }

  lemma PatternSignal(v: Vocabulary, k: nat)
    requires k < |v.commands| && IsLower(v.chars, v.commands[k])
    ensures "command:" + Strip(v.chars, v.commands[k]) in CommandSignals(v.chars, v.commands, v.commands[k])
  {
    LowerOfLower(v.chars, v.commands[k]);
    assert At(v.commands[k], 0, v.commands[k]);
    CommandSignalMeans(v.chars, v.commands, v.commands[k], "command:" + Strip(v.chars, v.commands[k]));
  }

  lemma Around(lead: string, excerpt: string, pattern: string) returns (before: string, rest: string)
    requires Contains(excerpt, pattern)
    ensures lead + excerpt == before + pattern + rest
  {
    var i: nat :| i <= |excerpt| && At(excerpt, i, pattern);
    before, rest := lead + excerpt[..i], excerpt[i + |pattern|..];
  }

  lemma CommandInside(v: Vocabulary, lead: string, excerpt: string, k: nat)
    requires k < |v.commands| && IsLower(v.chars, v.commands[k]) && Contains(excerpt, v.commands[k])
    ensures Covers(v, lead + excerpt, "command:" + Strip(v.chars, v.commands[k]))
  {
    PatternSignal(v, k);
    var before, rest := Around(lead, excerpt, v.commands[k]);
    CommandIsCovered(v, before, v.commands[k], rest, "command:" + Strip(v.chars, v.commands[k]));
  }

  /** The quoted path, or the keywords in their surroundings. */
  lemma Lead(v: Vocabulary, path: Option<string>, diff: string) returns (lead: string)
    requires Sane(v)
    ensures if HasPath(path) then lead == "edit " + Quoted(path.value)
            else |lead| <= Room(v.keywords, 4) && IsLower(v.chars, lead)
    ensures !HasPath(path) ==> KeepsKeywords(v.chars, v.keywords, Lower(v.chars, " " + diff), lead)
  {
    if HasPath(path) {
      lead := "edit " + Quoted(path.value);
    } else {
      var text := Lower(v.chars, " " + diff);
      assert text[0] == v.chars.lower(' ') == ' ';
      lead := KeywordExcerpt(v.chars, v.keywords, text);
    }
  }

  lemma LeadCoversPath(v: Vocabulary, path: Option<string>, rest: string, sig: string)
    requires HasPath(path) && (exists q :: IsQuote(q) && q !in path.value) && PathSignal(v, path.value) == Some(sig)
    ensures Covers(v, "edit " + Quoted(path.value) + rest, sig)
  {
    LeadingPath("edit " + Quoted(path.value) + rest, path.value, rest);
    PathIsCovered(v, "edit " + Quoted(path.value) + rest, path.value, sig);
  }

  lemma LeadCoversKeyword(v: Vocabulary, lead: string, rest: string, text: string, sig: string)
    requires IsLower(v.chars, lead) && sig in KeywordSignals(v.chars, v.keywords, text)
    requires KeepsKeywords(v.chars, v.keywords, text, lead)
    ensures Covers(v, lead + rest, sig)
  {
    KeywordSignalMeans(v.chars, v.keywords, text, sig);
    var k :| 0 <= k < |v.keywords| && sig == "keyword:" + v.keywords[k] && HasKeyword(v.chars, text, v.keywords[k]);
    KeywordInside(v, lead, rest, k);
  }

  lemma TailCoversCommand(v: Vocabulary, lead: string, tail: string, diff: string, sig: string)
    requires Sane(v) && sig in CommandSignals(v.chars, v.commands, diff)
    requires KeepsCommands(v.commands, Lower(v.chars, diff), tail)
    ensures Covers(v, lead + tail, sig)
  {
    CommandSignalMeans(v.chars, v.commands, diff, sig);
    var k :| 0 <= k < |v.commands| && sig == "command:" + Strip(v.chars, v.commands[k]) &&
      Contains(Lower(v.chars, diff), v.commands[k]);
    assert Lower(v.chars, v.commands[k]) == v.commands[k];
    CommandInside(v, lead, tail, k);
  }

  /**
  An intent that covers the action and fits the room, which does not depend on the content. The path must
  avoid one of the quote characters.
  */
  lemma ShortIntent(v: Vocabulary, path: Option<string>, diff: string) returns (intent: string)
    requires Sane(v) && (HasPath(path) ==> exists q :: IsQuote(q) && q !in path.value)
    ensures |intent| <= IntentRoom(v, path) && CoversAction(v, intent, path, diff)
  {
    var lead := Lead(v, path, diff);
    var tail := CommandExcerpt(v.commands, Lower(v.chars, diff));
    intent := lead + tail;
    forall sig | sig in ActionSignals(v, path, diff) ensures Covers(v, intent, sig) {
      SignalOf(v, path, diff, sig);
      if sig in CommandSignals(v.chars, v.commands, diff) {
        TailCoversCommand(v, lead, tail, diff, sig);
      } else if HasPath(path) {
        LeadCoversPath(v, path, tail, sig);
      } else {
        LeadCoversKeyword(v, lead, tail, Lower(v.chars, " " + diff), sig);
      }
    }
  }

  /** Every governed action is clearable, however long its content, where the room is within the limit. */
  lemma ShortIntentExists(v: Vocabulary, path: Option<string>, diff: string, limit: nat)
    requires Sane(v) && (HasPath(path) ==> exists q :: IsQuote(q) && q !in path.value)
    requires IntentRoom(v, path) <= limit
    ensures exists intent :: |intent| <= limit && CoversAction(v, intent, path, diff)
  {
    var intent := ShortIntent(v, path, diff);
  }
}
