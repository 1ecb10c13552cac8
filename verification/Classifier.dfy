/** The intent classifier (src/data_olympus/enforce_policy.py:63-209): what governs an action, what a consult covers. */
module Classifier {
  import opened Common

  /** What the classifier uses of Python's strings, and `fnmatch`. */
  datatype Alphabet = Alphabet(lower: char -> char, word: char -> bool, space: char -> bool,
                               matches: (string, string) -> bool)

  /** The configured vocabulary; keywords and command fragments are stored in lower case. */
  datatype Vocabulary = Vocabulary(keywords: seq<string>, globs: seq<string>, commands: seq<string>, chars: Alphabet)

  function Lower(a: Alphabet, s: string): (r: string)
    ensures |r| == |s| && forall i :: 0 <= i < |s| ==> r[i] == a.lower(s[i])
  {
    seq(|s|, i requires 0 <= i < |s| => a.lower(s[i]))
  }

  ghost predicate Sane(v: Vocabulary) {
    && (forall c :: v.chars.lower(v.chars.lower(c)) == v.chars.lower(c))
    && (forall c :: c in " ;" ==> v.chars.lower(c) == c && !v.chars.word(c))
    && (forall keyword :: keyword in v.keywords ==> Lower(v.chars, keyword) == keyword)
    && (forall pattern :: pattern in v.commands ==> Lower(v.chars, pattern) == pattern)
  }

  predicate At(text: string, i: nat, part: string) {
    i + |part| <= |text| && text[i..i + |part|] == part
  }

  predicate Contains(text: string, part: string) {
    exists i: nat :: i <= |text| && At(text, i, part)
  }

  /** A word boundary before position `i`. */
  predicate Boundary(a: Alphabet, text: string, i: nat)
    requires i <= |text|
  {
    (i > 0 && a.word(text[i - 1])) != (i < |text| && a.word(text[i]))
  }

  /** The search for a keyword between word boundaries. */
  predicate HasKeyword(a: Alphabet, text: string, keyword: string) {
    exists i: nat :: i <= |text| && KeywordAt(a, text, i, keyword)
  }

  predicate KeywordAt(a: Alphabet, text: string, i: nat, keyword: string) {
    At(text, i, keyword) && Boundary(a, text, i) && Boundary(a, text, i + |keyword|)
  }

  // ---- Signals -------------------------------------------------------------------------------------

  function KeywordSignals(a: Alphabet, keywords: seq<string>, text: string): seq<string> {
    if keywords == [] then []
    else (if HasKeyword(a, text, keywords[0]) then ["keyword:" + keywords[0]] else [])
         + KeywordSignals(a, keywords[1..], text)
  }

  function CommandSignals(a: Alphabet, commands: seq<string>, text: string): seq<string> {
    if commands == [] then []
    else (if Contains(Lower(a, text), commands[0]) then ["command:" + Strip(a, commands[0])] else [])
         + CommandSignals(a, commands[1..], text)
  }

  function Strip(a: Alphabet, s: string): (core: string)
    ensures core != "" ==> !a.space(core[0]) && !a.space(core[|core| - 1])
  {
    if s != [] && a.space(s[0]) then Strip(a, s[1..])
    else if s != [] && a.space(s[|s| - 1]) then Strip(a, s[..|s| - 1])
    else s
  }

  function Slashed(path: string): (r: string)
    ensures |r| == |path| && forall i :: 0 <= i < |r| ==> r[i] == (if path[i] == '\\' then '/' else path[i])
  {
    seq(|path|, i requires 0 <= i < |path| => if path[i] == '\\' then '/' else path[i])
  }

  function BaseName(path: string): (base: string)
    ensures |base| <= |path| && path[|path| - |base|..] == base && '/' !in base
    ensures |base| == |path| || path[|path| - |base| - 1] == '/'
    decreases |path|
  {
    if path == [] || path[|path| - 1] == '/' then [] else BaseName(path[..|path| - 1]) + [path[|path| - 1]]
  }

  /** The first glob that matches the path or its last component. */
  function FirstGlob(a: Alphabet, globs: seq<string>, path: string): Option<string> {
    if globs == [] then None
    else if a.matches(path, globs[0]) || a.matches(BaseName(path), globs[0]) then Some("path:" + globs[0])
    else FirstGlob(a, globs[1..], path)
  }

  function PathSignal(v: Vocabulary, path: string): Option<string> {
    FirstGlob(v.chars, v.globs, Slashed(path))
  }

  function PathSignals(v: Vocabulary, path: string): seq<string> {
    match PathSignal(v, path)
    case None => []
    case Some(sig) => [sig]
  }

  /** `if action_path:` an absent and an empty path are the same. */
  predicate HasPath(path: Option<string>) {
    path.Some? && path.value != ""
  }

  /** `classify`. */
  function Classify(v: Vocabulary, intent: string, path: Option<string>, diff: string): seq<string> {
    KeywordSignals(v.chars, v.keywords, Lower(v.chars, if HasPath(path) then intent else intent + " " + diff))
    + CommandSignals(v.chars, v.commands, diff)
    + (if HasPath(path) then PathSignals(v, path.value) else [])
  }

  // ---- What a consult covers ---------------------------------------------------------------------

  predicate IsQuote(c: char) {
    c in "'\"`"
  }

  predicate Delimits(a: Alphabet, c: char) {
    a.space(c) || IsQuote(c)
  }

  /** The maximal stretches free of whitespace and quotes. */
  function Tokens(a: Alphabet, s: string): seq<string> {
    if s == [] then []
    else if Delimits(a, s[0]) then Tokens(a, s[1..])
    else
      var n := TokenLength(a, s);
      [s[..n]] + Tokens(a, s[n..])
  }

  function TokenLength(a: Alphabet, s: string): (n: nat)
    ensures n <= |s| && (s != [] && !Delimits(a, s[0]) ==> n > 0)
  {
    if s == [] || Delimits(a, s[0]) then 0 else 1 + TokenLength(a, s[1..])
  }

  /** A token without the punctuation that ends a sentence. */
  function Trimmed(token: string): (core: string)
    ensures |core| <= |token| && token[..|core|] == core
    ensures core != "" ==> core[|core| - 1] !in ['.', ',', ';', ':', '!', '?', ')']
    ensures forall i :: |core| <= i < |token| ==> token[i] in ['.', ',', ';', ':', '!', '?', ')']
    decreases |token|
  {
    if token != [] && token[|token| - 1] in ".,;:!?)" then Trimmed(token[..|token| - 1]) else token
  }

  /** Where the next `q` stands at or after `from`. */
  function NextQuote(s: string, q: char, from: nat): (k: nat)
    requires from <= |s|
    ensures from <= k <= |s| && (k < |s| ==> s[k] == q) && forall i :: from <= i < k ==> s[i] != q
    decreases |s| - from
  {
    if from == |s| || s[from] == q then from else NextQuote(s, q, from + 1)
  }

  /** The contents of the quoted spans, found from left to right without overlap. */
  function Spans(s: string): seq<string>
    decreases |s|
  {
    if s == "" then []
    else if !IsQuote(s[0]) then Spans(s[1..])
    else
      var k := NextQuote(s, s[0], 1);
      if k == |s| || k == 1 then Spans(s[1..]) else [s[1..k]] + Spans(s[k + 1..])
  }

  function TrimmedAll(tokens: seq<string>): seq<string> {
    seq(|tokens|, i requires 0 <= i < |tokens| => Trimmed(tokens[i]))
  }

  /** Every stretch of the intent that is tried as a path. */
  function Candidates(a: Alphabet, intent: string): seq<string> {
    Tokens(a, intent) + TrimmedAll(Tokens(a, intent)) + Spans(intent)
  }

  /** What a consult with this intent covers. */
  ghost predicate Covers(v: Vocabulary, intent: string, sig: string) {
    || sig in KeywordSignals(v.chars, v.keywords, Lower(v.chars, intent))
    || sig in CommandSignals(v.chars, v.commands, intent)
    || exists i :: 0 <= i < |Candidates(v.chars, intent)| && PathSignal(v, Candidates(v.chars, intent)[i]) == Some(sig)
  }

  /** `coverage`. */
  method Coverage(v: Vocabulary, intent: string) returns (signals: seq<string>)
    ensures forall sig :: sig in signals <==> Covers(v, intent, sig)
  {
    var a := v.chars;
    signals := KeywordSignals(a, v.keywords, Lower(a, intent)) + CommandSignals(a, v.commands, intent);
    ghost var start := signals;
    var tokens := Candidates(a, intent);
    for i := 0 to |tokens|
      invariant forall sig :: sig in signals <==>
                  sig in start || exists j :: 0 <= j < i && PathSignal(v, tokens[j]) == Some(sig)
    {
      var pathSignal := PathSignal(v, tokens[i]);
      if pathSignal.Some? && pathSignal.value !in signals {
        signals := signals + [pathSignal.value];
      }
    }
  }

  // ---- Reading the signals back ------------------------------------------------------------------

  lemma {:induction false} KeywordSignalMeans(a: Alphabet, keywords: seq<string>, text: string, sig: string)
    ensures sig in KeywordSignals(a, keywords, text) <==>
            exists k :: 0 <= k < |keywords| && sig == "keyword:" + keywords[k] && HasKeyword(a, text, keywords[k])
  {
    if keywords != [] {
      KeywordSignalMeans(a, keywords[1..], text, sig);
      assert forall k :: 0 < k < |keywords| ==> keywords[k] == keywords[1..][k - 1];
    }
  }

  lemma {:induction false} CommandSignalMeans(a: Alphabet, commands: seq<string>, text: string, sig: string)
    ensures sig in CommandSignals(a, commands, text) <==>
            exists k :: 0 <= k < |commands| && sig == "command:" + Strip(a, commands[k]) &&
              Contains(Lower(a, text), commands[k])
  {
    if commands != [] {
      CommandSignalMeans(a, commands[1..], text, sig);
      assert forall k :: 0 < k < |commands| ==> commands[k] == commands[1..][k - 1];
    }
  }

  // ---- What governs an action ----------------------------------------------------------------------

  /** The stripped fragment is what is left between leading and trailing white space. */
  lemma {:induction false} StripMeans(a: Alphabet, s: string) returns (x: string, y: string)
    ensures s == x + Strip(a, s) + y && AllSpace(a, x) && AllSpace(a, y)
  {
    if s != [] && a.space(s[0]) {
      x, y := StripMeans(a, s[1..]);
      Regrown(s, x, Strip(a, s), y);
      x := [s[0]] + x;
    } else if s != [] && a.space(s[|s| - 1]) {
      x, y := StripMeans(a, s[..|s| - 1]);
      Regrown(s, x, Strip(a, s), y);
      y := y + [s[|s| - 1]];
    } else {
      x, y := "", "";
    }
  }

  lemma Regrown(s: string, x: string, core: string, y: string)
    requires s != ""
    ensures s[1..] == x + core + y ==> s == ([s[0]] + x) + core + y
    ensures s[..|s| - 1] == x + core + y ==> s == x + core + (y + [s[|s| - 1]])
  {
    assert s == [s[0]] + s[1..] && s == s[..|s| - 1] + [s[|s| - 1]];
  }

  predicate AllSpace(a: Alphabet, s: string) {
    forall i :: 0 <= i < |s| ==> a.space(s[i])
  }

  lemma ContainsMeans(text: string, part: string)
    ensures Contains(text, part) <==> exists x, y :: text == x + part + y
  {
    if Contains(text, part) {
      var i: nat :| i <= |text| && At(text, i, part);
      assert text == text[..i] + part + text[i + |part|..];
    }
    if x, y :| text == x + part + y {
      assert At(text, |x|, part);
    }
  }

  /** The path with forward slashes, cut behind its last one. */
  predicate CutPath(path: string, dir: string, base: string) {
    && |dir + base| == |path|
    && (forall i :: 0 <= i < |path| ==> (dir + base)[i] == (if path[i] == '\\' then '/' else path[i]))
    && '/' !in base && (dir == "" || dir[|dir| - 1] == '/')
  }

  /** The path with forward slashes, or what follows its last one, matches the glob. */
  ghost predicate GlobMatches(a: Alphabet, glob: string, path: string) {
    exists dir, base :: CutPath(path, dir, base) && (a.matches(dir + base, glob) || a.matches(base, glob))
  }

  lemma SlashInDir(dir: string, base: string, i: nat)
    requires '/' !in base && i < |dir + base| && (dir + base)[i] == '/'
    ensures i < |dir|
  {
    if i >= |dir| {
      InBase(dir, base, i);
    }
  }

  lemma InBase(dir: string, base: string, i: nat)
    requires |dir| <= i < |dir + base|
    ensures (dir + base)[i] in base
  {
    assert (dir + base)[i] == base[i - |dir|];
  }

  lemma CutIsUnique(path: string, dir: string, base: string, other: string, last: string)
    requires CutPath(path, dir, base) && CutPath(path, other, last)
    ensures dir == other && base == last
  {
    assert dir + base == other + last;
    if dir != "" {
      SlashInDir(other, last, |dir| - 1);
    }
    if other != "" {
      SlashInDir(dir, base, |other| - 1);
    }
    assert |dir| == |other|;
    assert (dir + base)[..|dir|] == dir && (other + last)[..|other|] == other;
    assert (dir + base)[|dir|..] == base && (other + last)[|other|..] == last;
  }

  lemma CutExists(path: string) returns (dir: string)
    ensures CutPath(path, dir, BaseName(Slashed(path))) && dir + BaseName(Slashed(path)) == Slashed(path)
  {
    var whole, last := Slashed(path), BaseName(Slashed(path));
    dir := whole[..|whole| - |last|];
    assert whole == dir + last;
  }

  lemma GlobMatchesMeans(a: Alphabet, glob: string, path: string)
    ensures GlobMatches(a, glob, path) <==> a.matches(Slashed(path), glob) || a.matches(BaseName(Slashed(path)), glob)
  {
    var dir := CutExists(path);
    if GlobMatches(a, glob, path) {
      var other, base :| CutPath(path, other, base) && (a.matches(other + base, glob) || a.matches(base, glob));
      CutIsUnique(path, dir, BaseName(Slashed(path)), other, base);
    }
  }

  /** The `k`-th glob is the first that matches. */
  ghost predicate FirstMatch(v: Vocabulary, path: string, k: int) {
    && 0 <= k < |v.globs| && GlobMatches(v.chars, v.globs[k], path)
    && forall j :: 0 <= j < k ==> !GlobMatches(v.chars, v.globs[j], path)
  }

  lemma {:induction false} FirstGlobIs(a: Alphabet, globs: seq<string>, path: string) returns (k: nat)
    ensures k <= |globs| && forall j :: 0 <= j < k ==> !GlobMatches(a, globs[j], path)
    ensures FirstGlob(a, globs, Slashed(path)) == if k < |globs| then Some("path:" + globs[k]) else None
    ensures k < |globs| ==> GlobMatches(a, globs[k], path)
  {
    k := 0;
    if globs != [] {
      GlobMatchesMeans(a, globs[0], path);
      if !GlobMatches(a, globs[0], path) {
        var rest := FirstGlobIs(a, globs[1..], path);
        k := rest + 1;
        assert forall j :: 0 < j < |globs| ==> globs[j] == globs[1..][j - 1];
      }
    }
  }

  /** A path has a signal if and only if a glob matches, and then it is that of the first. */
  lemma PathSignalMeans(v: Vocabulary, path: string)
    ensures PathSignal(v, path).None? <==> forall k :: !FirstMatch(v, path, k)
    ensures forall sig :: PathSignal(v, path) == Some(sig) <==>
              exists k :: FirstMatch(v, path, k) && sig == "path:" + v.globs[k]
  {
    var k := FirstGlobIs(v.chars, v.globs, path);
    if k < |v.globs| {
      assert FirstMatch(v, path, k);
      forall j | FirstMatch(v, path, j) ensures j == k {
        OneFirst(v, path, j, k);
      }
    }
  }

  lemma OneFirst(v: Vocabulary, path: string, j: int, k: int)
    requires FirstMatch(v, path, j) && FirstMatch(v, path, k)
    ensures j == k
  {
  }

  /** A stripped fragment occurs in the content, in lower case. */
  ghost predicate CommandGoverns(v: Vocabulary, diff: string, k: int) {
    0 <= k < |v.commands| && exists x, y :: Lower(v.chars, diff) == x + v.commands[k] + y
  }

  /** A keyword stands between word boundaries of the content, in lower case. */
  ghost predicate KeywordGoverns(v: Vocabulary, diff: string, k: int) {
    0 <= k < |v.keywords| && exists x, y :: BetweenBoundaries(v.chars, Lower(v.chars, diff), x, v.keywords[k], y)
  }

  /** The character on either side of a boundary, with the end of the text as no word character. */
  predicate BetweenBoundaries(a: Alphabet, text: string, x: string, part: string, y: string) {
    && text == x + part + y
    && EndsWord(a, x) != StartsWord(a, part + y) && EndsWord(a, x + part) != StartsWord(a, y)
  }

  predicate EndsWord(a: Alphabet, s: string) {
    s != "" && a.word(s[|s| - 1])
  }

  predicate StartsWord(a: Alphabet, s: string) {
    s != "" && a.word(s[0])
  }

  lemma HasKeywordMeans(a: Alphabet, text: string, keyword: string)
    ensures HasKeyword(a, text, keyword) <==> exists x, y :: BetweenBoundaries(a, text, x, keyword, y)
  {
    if HasKeyword(a, text, keyword) {
      var i: nat :| i <= |text| && KeywordAt(a, text, i, keyword);
      CutAt(a, text, i, keyword);
    }
    if x, y :| BetweenBoundaries(a, text, x, keyword, y) {
      BetweenAt(a, text, x, keyword, y);
      assert KeywordAt(a, text, |x|, keyword);
    }
  }

  lemma CutAt(a: Alphabet, text: string, i: nat, part: string)
    requires i <= |text| && KeywordAt(a, text, i, part)
    ensures BetweenBoundaries(a, text, text[..i], part, text[i + |part|..])
  {
    assert text[i..] == part + text[i + |part|..] && text[..i + |part|] == text[..i] + part;
  }

  lemma BetweenAt(a: Alphabet, text: string, x: string, part: string, y: string)
    requires BetweenBoundaries(a, text, x, part, y)
    ensures KeywordAt(a, text, |x|, part)
  {
    assert text[..|x|] == x && text[|x|..] == part + y && text[|x|..|x| + |part|] == part;
    assert text[..|x| + |part|] == x + part && text[|x| + |part|..] == y;
  }

  // ---- Which stretches of an intent are tried as a path ---------------------------------------------------

  /** White space or one of the three quotes. */
  predicate Separates(a: Alphabet, c: char) {
    a.space(c) || c == '\'' || c == '"' || c == '`'
  }

  /** A stretch between separators, or the ends of the text, that is not empty and holds none. */
  predicate TokenAt(a: Alphabet, s: string, x: string, token: string, y: string) {
    && s == x + token + y && token != "" && (forall i :: 0 <= i < |token| ==> !Separates(a, token[i]))
    && (x == "" || Separates(a, x[|x| - 1])) && (y == "" || Separates(a, y[0]))
  }

  lemma {:induction false} TokenLengthMeans(a: Alphabet, s: string)
    ensures var n := TokenLength(a, s);
            (forall i :: 0 <= i < n ==> !Separates(a, s[i])) && (n < |s| ==> Separates(a, s[n]))
  {
    if s != "" && !Delimits(a, s[0]) {
      TokenLengthMeans(a, s[1..]);
      var n := TokenLength(a, s[1..]);
      forall i | 0 <= i < n + 1 ensures !Separates(a, s[i]) {
        assert i > 0 ==> s[i] == s[1..][i - 1];
      }
      assert n < |s[1..]| ==> s[n + 1] == s[1..][n];
    }
  }

  /** The tokens are exactly those stretches. */
  lemma {:induction false} TokensAre(a: Alphabet, s: string, token: string)
    ensures token in Tokens(a, s) <==> exists x, y :: TokenAt(a, s, x, token, y)
  {
    if s != "" {
      TokenLengthMeans(a, s);
      var n := if Separates(a, s[0]) then 1 else TokenLength(a, s);
      TokensAre(a, s[n..], token);
      TokenStep(a, s, n, token);
    }
  }

  /** A token of a text is its first one, up to place `n`, or one of the rest. */
  lemma TokenStep(a: Alphabet, s: string, n: nat, token: string)
    requires 0 < n <= |s|
    requires if Separates(a, s[0]) then n == 1
             else (forall i :: 0 <= i < n ==> !Separates(a, s[i])) && (n < |s| ==> Separates(a, s[n]))
    ensures (exists x, y :: TokenAt(a, s, x, token, y)) <==>
            (token == s[..n] && !Separates(a, s[0])) || exists x, y :: TokenAt(a, s[n..], x, token, y)
  {
    if x, y :| TokenAt(a, s, x, token, y) {
      FirstOrBehind(a, s, n, x, token, y);
    }
    if x, y :| TokenAt(a, s[n..], x, token, y) {
      BehindFirst(a, s, n, x, token, y);
    }
    if !Separates(a, s[0]) {
      assert TokenAt(a, s, "", s[..n], s[n..]);
    }
  }

  lemma BehindFirst(a: Alphabet, s: string, n: nat, x: string, token: string, y: string)
    requires 0 < n <= |s| && TokenAt(a, s[n..], x, token, y)
    requires (n == 1 && Separates(a, s[0])) || (n < |s| ==> Separates(a, s[n]))
    ensures TokenAt(a, s, s[..n] + x, token, y)
  {
    assert s == s[..n] + s[n..];
    if x == "" {
      assert s[n..][0] == token[0];
    }
  }

  lemma FirstOrBehind(a: Alphabet, s: string, n: nat, x: string, token: string, y: string)
    requires 0 < n <= |s| && TokenAt(a, s, x, token, y)
    requires if Separates(a, s[0]) then n == 1
             else (forall i :: 0 <= i < n ==> !Separates(a, s[i])) && (n < |s| ==> Separates(a, s[n]))
    ensures if x == "" then token == s[..n] && !Separates(a, s[0])
            else n <= |x| && TokenAt(a, s[n..], x[n..], token, y)
  {
    if x == "" {
      assert token[0] == s[0];
      StopsTogether(a, s, n, token, y);
    } else {
      assert s[|x| - 1] == x[|x| - 1];
      assert s[n..] == x[n..] + token + y;
    }
  }

  lemma StopsTogether(a: Alphabet, s: string, n: nat, token: string, y: string)
    requires 0 < n <= |s| && TokenAt(a, s, "", token, y)
    requires (forall i :: 0 <= i < n ==> !Separates(a, s[i])) && (n < |s| ==> Separates(a, s[n]))
    ensures token == s[..n]
  {
    EndsAt(a, s, token, y);
    assert |token| == n;
    assert s == token + y;
  }

  lemma EndsAt(a: Alphabet, s: string, token: string, y: string)
    requires TokenAt(a, s, "", token, y)
    ensures |token| <= |s| && forall i :: 0 <= i < |token| ==> !Separates(a, s[i])
    ensures |token| < |s| ==> Separates(a, s[|token|])
  {
    assert s == token + y;
    assert forall i :: 0 <= i < |token| ==> s[i] == token[i];
  }

  predicate Unquoted(s: string) {
    forall i :: 0 <= i < |s| ==> s[i] != '\'' && s[i] != '"' && s[i] != '`'
  }

  lemma {:induction false} SpansBehind(before: string, rest: string)
    requires Unquoted(before)
    ensures Spans(before + rest) == Spans(rest)
  {
    if before == "" {
      assert before + rest == rest;
    } else {
      assert (before + rest)[1..] == before[1..] + rest;
      SpansBehind(before[1..], rest);
    }
  }

  /**
  The spans, from left to right: a quote that closes later opens one with what is between, if that is not empty;
  any other quote opens none; and a text without quotes has none.
  */
  lemma SpansAre(before: string, q: char, inner: string, rest: string)
    requires Unquoted(before) && (q == '\'' || q == '"' || q == '`') && q !in inner
    ensures Spans(before) == []
    ensures Spans(before + ([q] + inner)) == Spans(inner)
    ensures inner != "" ==> Spans(before + ([q] + inner + [q] + rest)) == [inner] + Spans(rest)
    ensures Spans(before + ([q] + [q] + rest)) == Spans([q] + rest)
  {
    SpansBehind(before, "");
    assert before + "" == before;
    SpansBehind(before, [q] + inner);
    SpansBehind(before, [q] + inner + [q] + rest);
    SpansBehind(before, [q] + [q] + rest);
    Unclosed(q, inner);
    if inner != "" {
      Closed(q, inner, rest);
    }
    Empty(q, rest);
  }

  lemma Empty(q: char, rest: string)
    requires IsQuote(q)
    ensures Spans([q] + [q] + rest) == Spans([q] + rest)
  {
    var twice := [q] + [q] + rest;
    assert twice[1..] == [q] + rest && twice[1] == q;
  }

  lemma Unclosed(q: char, inner: string)
    requires IsQuote(q) && q !in inner
    ensures Spans([q] + inner) == Spans(inner)
  {
    var s := [q] + inner;
    assert s[1..] == inner && forall i :: 1 <= i < |s| ==> s[i] == inner[i - 1];
    assert NextQuote(s, q, 1) == |s|;
  }

  lemma Closed(q: char, inner: string, rest: string)
    requires IsQuote(q) && q !in inner && inner != ""
    ensures Spans([q] + inner + [q] + rest) == [inner] + Spans(rest)
  {
    var s, n := [q] + inner + [q] + rest, |inner| + 1;
    assert s[0] == q && s[n] == q && forall i :: 1 <= i < n ==> s[i] == inner[i - 1];
    assert NextQuote(s, q, 1) == n && s[1..n] == inner && s[n + 1..] == rest;
  }

  /** What is tried as a path: the tokens, with and without the punctuation that ends a sentence, and the spans. */
  ghost predicate Tried(a: Alphabet, intent: string, t: string) {
    || (exists x, y :: TokenAt(a, intent, x, t, y))
    || (exists x, token, y :: TokenAt(a, intent, x, token, y) && t == Trimmed(token))
    || t in Spans(intent)
  }

  lemma CandidatesAre(a: Alphabet, intent: string, t: string)
    ensures t in Candidates(a, intent) <==> Tried(a, intent, t)
  {
    TokensAre(a, intent, t);
    var tokens := Tokens(a, intent);
    if t in TrimmedAll(tokens) {
      var i :| 0 <= i < |tokens| && t == Trimmed(tokens[i]);
      TokensAre(a, intent, tokens[i]);
    }
    if x, token, y :| TokenAt(a, intent, x, token, y) && t == Trimmed(token) {
      TokensAre(a, intent, token);
      var i :| 0 <= i < |tokens| && tokens[i] == token;
      assert TrimmedAll(tokens)[i] == t;
    }
  }

  /** A consult covers the keywords and commands of its intent, and the first glob of every path tried. */
  lemma CoversMeans(v: Vocabulary, intent: string, sig: string)
    ensures Covers(v, intent, sig) <==>
            || (exists k :: KeywordGoverns(v, intent, k) && sig == "keyword:" + v.keywords[k])
            || (exists k :: CommandGoverns(v, intent, k) && sig == "command:" + Strip(v.chars, v.commands[k]))
            || (exists t, k :: Tried(v.chars, intent, t) && FirstMatch(v, t, k) && sig == "path:" + v.globs[k])
  {
    KeywordSignalMeans(v.chars, v.keywords, Lower(v.chars, intent), sig);
    CommandSignalMeans(v.chars, v.commands, intent, sig);
    forall k | 0 <= k < |v.keywords|
      ensures HasKeyword(v.chars, Lower(v.chars, intent), v.keywords[k]) <==> KeywordGoverns(v, intent, k)
    {
      HasKeywordMeans(v.chars, Lower(v.chars, intent), v.keywords[k]);
    }
    forall k | 0 <= k < |v.commands| ensures Contains(Lower(v.chars, intent), v.commands[k]) <==>
        CommandGoverns(v, intent, k) {
      ContainsMeans(Lower(v.chars, intent), v.commands[k]);
    }
    PathsCovered(v, intent, sig);
  }

  lemma PathsCovered(v: Vocabulary, intent: string, sig: string)
    ensures (exists i ::
               0 <= i < |Candidates(v.chars, intent)| &&
                 PathSignal(v, Candidates(v.chars, intent)[i]) == Some(sig)) <==>
            exists t, k :: Tried(v.chars, intent, t) && FirstMatch(v, t, k) && sig == "path:" + v.globs[k]
  {
    var candidates := Candidates(v.chars, intent);
    if i :| 0 <= i < |candidates| && PathSignal(v, candidates[i]) == Some(sig) {
      CandidatesAre(v.chars, intent, candidates[i]);
      PathSignalMeans(v, candidates[i]);
    }
    if t, k :| Tried(v.chars, intent, t) && FirstMatch(v, t, k) && sig == "path:" + v.globs[k] {
      CandidatesAre(v.chars, intent, t);
      PathSignalMeans(v, t);
      var i :| 0 <= i < |candidates| && candidates[i] == t;
    }
  }
}
