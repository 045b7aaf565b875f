/**
 * The mapping from a grammar-checking service's response to issues: which
 * matches become issues (category, false-positive and custom-dictionary
 * filters), how each is worded, and the cap on how many are kept.
 *
 * The request itself is not modelled; the already-parsed list of matches is
 * the input.
 */
module LanguageTool {
  import opened Wrappers
  import opened JsText
  import opened Issues

  const MAX_ISSUES: nat := 12

  /** The text around a match and the match's place in it. */
  datatype LtContext = LtContext(text: string, offset: int, length: int)

  /** One match of the response: `rule.category.id` and `rule.issueType` are kept flat. */
  datatype LtMatch = LtMatch(
    message: string,
    offset: int,
    length: int,
    replacements: seq<string>,
    context: LtContext,
    categoryId: string,
    issueType: string)

  // ---------------------------------------------------------------------------
  // Category and severity
  // ---------------------------------------------------------------------------

  predicate IsGrammarRule(m: LtMatch) {
    m.issueType == "misspelling" || m.categoryId == "TYPOS" || m.categoryId == "GRAMMAR" || m.issueType == "grammar"
  }

  predicate IsPunctuationCategory(id: string) {
    id == "PUNCTUATION" || id == "TYPOGRAPHY"
  }

  predicate IsToneCategory(id: string) {
    id == "STYLE" || id == "TONE_OF_VOICE"
  }

  /** `mapCategory`: the first of grammar, formatting, tone whose test the rule meets, or none. */
  function MapCategory(m: LtMatch): (r: Option<Category>)
    ensures r == Some(Grammar) <==> IsGrammarRule(m)
    ensures r == Some(Formatting) <==> !IsGrammarRule(m) && IsPunctuationCategory(m.categoryId)
    ensures r == Some(Tone) <==> !IsGrammarRule(m) && !IsPunctuationCategory(m.categoryId) && IsToneCategory(m.categoryId)
    ensures r != Some(Context)
  {
    if m.issueType == "misspelling" || m.categoryId == "TYPOS" then Some(Grammar)
    else if m.categoryId == "GRAMMAR" || m.issueType == "grammar" then Some(Grammar)
    else if m.categoryId == "PUNCTUATION" || m.categoryId == "TYPOGRAPHY" then Some(Formatting)
    else if m.categoryId == "STYLE" || m.categoryId == "TONE_OF_VOICE" then Some(Tone)
    else None
  }

  /** `mapSeverity`: medium for spelling and grammar issue types, low otherwise, never high. */
  function MapSeverity(m: LtMatch): (r: Severity)
    ensures r == Medium <==> m.issueType == "misspelling" || m.issueType == "grammar"
    ensures r != High
  {
    if m.issueType == "misspelling" then Medium
    else if m.issueType == "grammar" then Medium
    else Low
  }

  // ---------------------------------------------------------------------------
  // Wording
  // ---------------------------------------------------------------------------

  /** `extractWord`: the flagged stretch of the context text. */
  function ExtractWord(m: LtMatch): (r: string)
    ensures |r| <= |m.context.text|
    ensures 0 <= m.context.offset && 0 <= m.context.length && m.context.offset + m.context.length <= |m.context.text| ==>
      r == m.context.text[m.context.offset..m.context.offset + m.context.length]
  {
    Slice(m.context.text, m.context.offset, m.context.offset + m.context.length)
  }

  /** `map(v => v.trim()).filter(v => v.length > 0)`. */
  function TrimmedReplacements(values: seq<string>): (r: seq<string>)
    ensures forall i :: 0 <= i < |r| ==> r[i] != []
    ensures |r| <= |values|
  {
    if values == [] then []
    else
      var t := Trim(values[0]);
      if |t| > 0 then [t] + TrimmedReplacements(values[1..]) else TrimmedReplacements(values[1..])
  }

  /** The kept replacements are exactly the non-empty trimmed values. */
  lemma TrimmedReplacementsMembers(values: seq<string>)
    ensures forall v :: v in TrimmedReplacements(values) <==> exists i :: 0 <= i < |values| && Trim(values[i]) == v && v != []
  {
    forall v ensures v in TrimmedReplacements(values) <==> exists i :: 0 <= i < |values| && Trim(values[i]) == v && v != [] {
      if v in TrimmedReplacements(values) {
        TrimmedReplacementsSound(values, v);
      }
      if exists i :: 0 <= i < |values| && Trim(values[i]) == v && v != [] {
        var i :| 0 <= i < |values| && Trim(values[i]) == v && v != [];
        TrimmedReplacementsComplete(values, i);
      }
    }
  }

  /** Every kept replacement is the trimmed form of some value. */
  lemma {:induction false} TrimmedReplacementsSound(values: seq<string>, v: string)
    requires v in TrimmedReplacements(values)
    ensures v != [] && exists i :: 0 <= i < |values| && Trim(values[i]) == v
  {
    var t := Trim(values[0]);
    if t == [] || v != t {
      TrimmedReplacementsSound(values[1..], v);
      var i :| 0 <= i < |values[1..]| && Trim(values[1..][i]) == v;
      assert values[i + 1] == values[1..][i];
    }
  }

  /** The trimmed form of every value is kept unless it is empty. */
  lemma {:induction false} TrimmedReplacementsComplete(values: seq<string>, i: nat)
    requires i < |values| && Trim(values[i]) != []
    ensures Trim(values[i]) in TrimmedReplacements(values)
  {
    if i > 0 {
      assert values[1..][i - 1] == values[i];
      TrimmedReplacementsComplete(values[1..], i - 1);
    }
  }

  /** `/^[A-Za-z]+$/.test(original)`. */
  predicate LooksLikeSingleWord(s: string) {
    |s| > 0 && forall i :: 0 <= i < |s| ==> IsAsciiLetter(s[i])
  }

  /** The index `find(v => v.includes(" "))` stops at, `|xs|` when none does. */
  function FirstWithSpace(xs: seq<string>): (i: nat)
    ensures i <= |xs|
    ensures i < |xs| ==> Includes(xs[i], " ")
    ensures forall j :: 0 <= j < i ==> !Includes(xs[j], " ")
  {
    if xs == [] then 0
    else if Includes(xs[0], " ") then 0
    else 1 + FirstWithSpace(xs[1..])
  }

  /**
   * `pickPreferredReplacement`: nothing when no replacement is non-blank;
   * otherwise, for a single plain word, the first candidate with a space if
   * there is one, and else the first candidate.
   */
  function PickPreferredReplacement(replacements: seq<string>, original: string): (r: Option<string>)
    ensures var cs := TrimmedReplacements(replacements);
      && (r.None? <==> cs == [])
      && (r.Some? ==> r.value in cs && r.value != [])
      && (r.Some? && LooksLikeSingleWord(original) && FirstWithSpace(cs) < |cs| ==> r.value == cs[FirstWithSpace(cs)])
      && (r.Some? && !(LooksLikeSingleWord(original) && FirstWithSpace(cs) < |cs|) ==> r.value == cs[0])
  {
    var cs := TrimmedReplacements(replacements);
    if |cs| == 0 then None
    else if LooksLikeSingleWord(original) && FirstWithSpace(cs) < |cs| then Some(cs[FirstWithSpace(cs)])
    else Some(cs[0])
  }

  /** No replacement is picked exactly when every one is blank after trimming. */
  lemma PickNoneIffBlank(replacements: seq<string>, original: string)
    ensures PickPreferredReplacement(replacements, original).None? <==>
      forall i :: 0 <= i < |replacements| ==> Trim(replacements[i]) == []
  {
    TrimmedReplacementsMembers(replacements);
    var cs := TrimmedReplacements(replacements);
    if cs != [] {
      assert cs[0] in cs;
    } else {
      forall i | 0 <= i < |replacements|
        ensures Trim(replacements[i]) == [] || Trim(replacements[i]) in cs
      {
      }
    }
  }

  /** A picked replacement is the trimmed form of one of the given values. */
  lemma PickIsTrimmedValue(replacements: seq<string>, original: string)
    requires PickPreferredReplacement(replacements, original).Some?
    ensures exists i :: 0 <= i < |replacements| && Trim(replacements[i]) == PickPreferredReplacement(replacements, original).value
  {
    TrimmedReplacementsMembers(replacements);
  }

  function Quoted(s: string): string {
    "\"" + s + "\""
  }

  /** `buildMessage`: the rule's message, followed by `"word" -> "replacement"` when there is a replacement. */
  function BuildMessage(m: LtMatch): (r: string)
    ensures m.message <= r
    ensures PickPreferredReplacement(m.replacements, ExtractWord(m)).None? ==> r == m.message
  {
    var word := ExtractWord(m);
    var replacement := PickPreferredReplacement(m.replacements, word);
    if replacement.Some? then m.message + " " + Quoted(word) + " -> " + Quoted(replacement.value)
    else m.message
  }

  /** With a replacement the message quotes both the flagged word and the replacement. */
  lemma BuildMessageQuotes(m: LtMatch)
    requires PickPreferredReplacement(m.replacements, ExtractWord(m)).Some?
    ensures Includes(BuildMessage(m), Quoted(ExtractWord(m)))
    ensures Includes(BuildMessage(m), Quoted(PickPreferredReplacement(m.replacements, ExtractWord(m)).value))
    ensures |BuildMessage(m)| > |m.message|
  {
    var word := Quoted(ExtractWord(m));
    var rep := Quoted(PickPreferredReplacement(m.replacements, ExtractWord(m)).value);
    var r := BuildMessage(m);
    var k1 := |m.message| + 1;
    var k2 := k1 + |word| + 4;
    assert r == m.message + " " + word + " -> " + rep;
    assert r[k1..k1 + |word|] == word;
    assert r[k2..k2 + |rep|] == rep;
    IncludesAt(r, word, k1);
    IncludesAt(r, rep, k2);
  }

  // ---------------------------------------------------------------------------
  // Newline false positives
  // ---------------------------------------------------------------------------

  /** A "space after the comma" complaint about a comma that ends a line. */
  predicate CommaBeforeLineBreak(m: LtMatch, sourceText: string) {
    && Includes(Lower(m.message), "space after the comma")
    && CharAt(sourceText, m.offset) == Some(',')
    && (CharAt(sourceText, m.offset + 1) == Some('\n') || CharAt(sourceText, m.offset + 1) == Some('\r'))
  }

  function Max(a: int, b: int): int {
    if a >= b then a else b
  }

  /** `isNewlinePunctuationFalsePositive`. */
  predicate IsNewlinePunctuationFalsePositive(m: LtMatch, evidence: string, sourceText: string) {
    if !IsPunctuationCategory(m.categoryId) then false
    else if CommaBeforeLineBreak(m, sourceText) then true
    else if Includes(evidence, "\n") then true
    else if Includes(m.context.text, "\n") then true
    else Includes(Slice(sourceText, m.offset, m.offset + Max(m.length, 1)), "\n")
  }

  /** Only punctuation and typography matches are ever suppressed. */
  lemma FalsePositiveOnlyPunctuation(m: LtMatch, evidence: string, sourceText: string)
    requires !IsPunctuationCategory(m.categoryId)
    ensures !IsNewlinePunctuationFalsePositive(m, evidence, sourceText)
  {
  }

  /** A punctuation match whose evidence or context holds a line break is suppressed. */
  lemma FalsePositiveOnNewline(m: LtMatch, evidence: string, sourceText: string)
    requires IsPunctuationCategory(m.categoryId)
    requires '\n' in evidence || '\n' in m.context.text
    ensures IsNewlinePunctuationFalsePositive(m, evidence, sourceText)
  {
    IncludesChar(evidence, '\n');
    IncludesChar(m.context.text, '\n');
  }

  /** The characters `slice(offset, offset + max(length, 1))` reads: the window's indices inside the text. */
  ghost predicate LineBreakInWindow(m: LtMatch, sourceText: string) {
    exists k :: 0 <= m.offset <= k < m.offset + Max(m.length, 1) && k < |sourceText| && sourceText[k] == '\n'
  }

  /** The match's window of the source, for an offset that is not negative. */
  lemma WindowSlice(m: LtMatch, sourceText: string)
    requires 0 <= m.offset < |sourceText|
    ensures var e := if m.offset + Max(m.length, 1) > |sourceText| then |sourceText| else m.offset + Max(m.length, 1);
      Slice(sourceText, m.offset, m.offset + Max(m.length, 1)) == sourceText[m.offset..e]
  {
  }

  /** A punctuation match whose window of the source holds a line break is suppressed, wherever the break lies in it. */
  lemma FalsePositiveAtLineBreak(m: LtMatch, evidence: string, sourceText: string)
    requires IsPunctuationCategory(m.categoryId)
    requires LineBreakInWindow(m, sourceText)
    ensures IsNewlinePunctuationFalsePositive(m, evidence, sourceText)
  {
    var k :| 0 <= m.offset <= k < m.offset + Max(m.length, 1) && k < |sourceText| && sourceText[k] == '\n';
    WindowSlice(m, sourceText);
    var s := Slice(sourceText, m.offset, m.offset + Max(m.length, 1));
    assert s[k - m.offset] == '\n';
    IncludesChar(s, '\n');
  }

  /**
   * And these are the only reasons: a suppressed match is a punctuation one
   * with the comma complaint, or a line break in its evidence, its context
   * or its window of the source (a negative offset, which the service does
   * not send, makes `slice` count from the end of the text).
   */
  lemma FalsePositiveReasons(m: LtMatch, evidence: string, sourceText: string)
    requires IsNewlinePunctuationFalsePositive(m, evidence, sourceText)
    ensures IsPunctuationCategory(m.categoryId)
    ensures || CommaBeforeLineBreak(m, sourceText)
            || '\n' in evidence || '\n' in m.context.text
            || (0 <= m.offset && LineBreakInWindow(m, sourceText))
            || (m.offset < 0 && '\n' in sourceText)
  {
    IncludesChar(evidence, '\n');
    IncludesChar(m.context.text, '\n');
    var s := Slice(sourceText, m.offset, m.offset + Max(m.length, 1));
    IncludesChar(s, '\n');
    if !CommaBeforeLineBreak(m, sourceText) && '\n' !in evidence && '\n' !in m.context.text {
      var j :| 0 <= j < |s| && s[j] == '\n';
      if 0 <= m.offset < |sourceText| {
        WindowSlice(m, sourceText);
        assert sourceText[m.offset + j] == '\n';
      } else if m.offset >= |sourceText| {
        assert false;
      } else {
        assert s[j] in sourceText;
      }
    }
  }

  /** "Space after the comma", in any letter case, about a comma before "\n" or "\r" is suppressed. */
  lemma FalsePositiveCommaAtLineEnd(m: LtMatch, evidence: string, sourceText: string)
    requires IsPunctuationCategory(m.categoryId)
    requires Includes(Lower(m.message), "space after the comma")
    requires 0 <= m.offset && m.offset + 1 < |sourceText| && sourceText[m.offset] == ','
    requires sourceText[m.offset + 1] == '\n' || sourceText[m.offset + 1] == '\r'
    ensures IsNewlinePunctuationFalsePositive(m, evidence, sourceText)
  {
  }

  // ---------------------------------------------------------------------------
  // Custom dictionary
  // ---------------------------------------------------------------------------

  predicate IsAlnum(c: char) {
    IsAsciiLetter(c) || IsAsciiDigit(c)
  }

  /** How many characters the leading `[^a-z0-9]+` run takes. */
  function LeadingJunk(s: string): (n: nat)
    ensures n <= |s|
    ensures forall i :: 0 <= i < n ==> !IsAlnum(s[i])
    ensures n < |s| ==> IsAlnum(s[n])
  {
    if s == [] || IsAlnum(s[0]) then 0 else 1 + LeadingJunk(s[1..])
  }

  /** Where the trailing `[^a-z0-9]+` run starts. */
  function JunkStart(s: string): (n: nat)
    ensures n <= |s|
    ensures forall i :: n <= i < |s| ==> !IsAlnum(s[i])
    ensures n > 0 ==> IsAlnum(s[n - 1])
  {
    if s == [] || IsAlnum(s[|s| - 1]) then |s| else JunkStart(s[..|s| - 1])
  }

  /** Any character at all in `s` is alphanumeric exactly when the two runs leave something in between. */
  lemma JunkBounds(s: string)
    ensures (exists i :: 0 <= i < |s| && IsAlnum(s[i])) <==> LeadingJunk(s) < JunkStart(s)
  {
    if exists i :: 0 <= i < |s| && IsAlnum(s[i]) {
      var i :| 0 <= i < |s| && IsAlnum(s[i]);
      assert LeadingJunk(s) <= i < JunkStart(s);
    }
  }

  /** `normalizeDictionaryToken`: lower case, without leading and trailing non-alphanumerics. */
  function NormalizeDictionaryToken(input: string): (r: string)
    ensures r == [] || (IsAlnum(r[0]) && IsAlnum(r[|r| - 1]))
    ensures forall i :: 0 <= i < |r| ==> !IsAsciiUpper(r[i])
  {
    var s := Lower(input);
    var lo := LeadingJunk(s);
    var hi := JunkStart(s);
    if lo < hi then s[lo..hi] else ""
  }

  /** Normalising a normalised token changes nothing. */
  lemma NormalizeDictionaryTokenIdempotent(input: string)
    ensures NormalizeDictionaryToken(NormalizeDictionaryToken(input)) == NormalizeDictionaryToken(input)
  {
    var r := NormalizeDictionaryToken(input);
    assert Lower(r) == r;
    if r != [] {
      assert LeadingJunk(r) == 0;
      assert JunkStart(r) == |r|;
    }
  }

  /** A token with an alphanumeric character normalises to a non-empty one, and only such a token does. */
  lemma NormalizeDictionaryTokenEmpty(input: string)
    ensures NormalizeDictionaryToken(input) == [] <==> forall i :: 0 <= i < |input| ==> !IsAlnum(input[i])
  {
    var s := Lower(input);
    JunkBounds(s);
    forall i | 0 <= i < |input| ensures IsAlnum(input[i]) <==> IsAlnum(s[i]) {
    }
  }

  /** `new Set(customDictionary.map(normalizeDictionaryToken).filter(Boolean))`. */
  function IgnoreSet(dictionary: seq<string>): (r: set<string>)
    ensures [] !in r
    ensures forall w :: w in r <==> exists i :: 0 <= i < |dictionary| && NormalizeDictionaryToken(dictionary[i]) == w && w != []
  {
    set i | 0 <= i < |dictionary| && NormalizeDictionaryToken(dictionary[i]) != [] :: NormalizeDictionaryToken(dictionary[i])
  }

  // ---------------------------------------------------------------------------
  // The result pipeline
  // ---------------------------------------------------------------------------

  /** Whether a match survives the filters: it has a category, is not a newline false positive, and is not ignored. */
  predicate Kept(m: LtMatch, ignore: set<string>, sourceText: string) {
    && MapCategory(m).Some?
    && !IsNewlinePunctuationFalsePositive(m, ExtractWord(m), sourceText)
    && !(NormalizeDictionaryToken(ExtractWord(m)) != [] && NormalizeDictionaryToken(ExtractWord(m)) in ignore)
  }

  /** The `map` callback: an issue for a kept match, nothing otherwise. */
  function MapMatch(m: LtMatch, ignore: set<string>, location: Location, sourceText: string): (r: Option<Issue>)
    ensures r.Some? <==> Kept(m, ignore, sourceText)
    ensures r.Some? ==> r.value.location == Some(location) && r.value.offset == Some(m.offset) && r.value.length == Some(m.length)
    ensures r.Some? ==> r.value.evidence == Some(ExtractWord(m)) && r.value.category == MapCategory(m).value
  {
    if MapCategory(m).None? then None
    else if IsNewlinePunctuationFalsePositive(m, ExtractWord(m), sourceText) then None
    else if NormalizeDictionaryToken(ExtractWord(m)) != [] && NormalizeDictionaryToken(ExtractWord(m)) in ignore then None
    else Some(Issue(MapCategory(m).value, MapSeverity(m), BuildMessage(m), Some(ExtractWord(m)),
      Some(location), Some(m.offset), Some(m.length)))
  }

  /** `filter(x => x !== null)`. */
  function Somes<T>(xs: seq<Option<T>>): (r: seq<T>)
    ensures |r| <= |xs|
  {
    if xs == [] then []
    else if xs[0].Some? then [xs[0].value] + Somes(xs[1..])
    else Somes(xs[1..])
  }

  lemma {:induction false} SomesAppend<T>(a: seq<Option<T>>, b: seq<Option<T>>)
    ensures Somes(a + b) == Somes(a) + Somes(b)
  {
    if a != [] {
      assert (a + b)[1..] == a[1..] + b;
      SomesAppend(a[1..], b);
    } else {
      assert a + b == b;
    }
  }

  /** The `k`-th kept value is the value of entry `i`. */
  lemma {:induction false} SomesFrom<T>(xs: seq<Option<T>>, k: nat) returns (i: nat)
    requires k < |Somes(xs)|
    ensures i < |xs| && xs[i] == Some(Somes(xs)[k])
  {
    if xs[0].Some? && k == 0 {
      i := 0;
    } else {
      var k' := if xs[0].Some? then k - 1 else k;
      var i' := SomesFrom(xs[1..], k');
      i := i' + 1;
    }
  }

  /** `xs.map(f)`. */
  function MapSeq<A, B>(xs: seq<A>, f: A -> B): (r: seq<B>)
    ensures |r| == |xs|
    ensures forall i :: 0 <= i < |xs| ==> r[i] == f(xs[i])
  {
    if xs == [] then [] else [f(xs[0])] + MapSeq(xs[1..], f)
  }

  lemma {:induction false} MapSeqAppend<A, B>(a: seq<A>, b: seq<A>, f: A -> B)
    ensures MapSeq(a + b, f) == MapSeq(a, f) + MapSeq(b, f)
  {
    if a != [] {
      assert (a + b)[1..] == a[1..] + b;
      MapSeqAppend(a[1..], b, f);
    } else {
      assert a + b == b;
    }
  }

  /** The `map` step: one optional issue per match. */
  function MapEach(matches: seq<LtMatch>, ignore: set<string>, location: Location, sourceText: string): seq<Option<Issue>> {
    MapSeq(matches, m => MapMatch(m, ignore, location, sourceText))
  }

  /** `map(...).filter(issue => issue !== null)`. */
  function MapAll(matches: seq<LtMatch>, ignore: set<string>, location: Location, sourceText: string): (r: seq<Issue>)
    ensures |r| <= |matches|
  {
    Somes(MapEach(matches, ignore, location, sourceText))
  }

  /** Mapping keeps the order of the matches: the issues of `a + b` are those of `a` followed by those of `b`. */
  lemma MapAllAppend(a: seq<LtMatch>, b: seq<LtMatch>, ignore: set<string>, location: Location, sourceText: string)
    ensures MapAll(a + b, ignore, location, sourceText) == MapAll(a, ignore, location, sourceText) + MapAll(b, ignore, location, sourceText)
  {
    MapSeqAppend(a, b, m => MapMatch(m, ignore, location, sourceText));
    SomesAppend(MapEach(a, ignore, location, sourceText), MapEach(b, ignore, location, sourceText));
  }

  /** Every mapped issue comes from a kept match: the `k`-th from match `i`. */
  lemma MapAllFrom(matches: seq<LtMatch>, ignore: set<string>, location: Location, sourceText: string, k: nat)
    returns (i: nat)
    requires k < |MapAll(matches, ignore, location, sourceText)|
    ensures i < |matches| && MapMatch(matches[i], ignore, location, sourceText) == Some(MapAll(matches, ignore, location, sourceText)[k])
  {
    i := SomesFrom(MapEach(matches, ignore, location, sourceText), k);
  }

  /** The list `fetchLanguageToolIssues` returns for a parsed response. */
  function FetchedIssues(matches: seq<LtMatch>, dictionary: seq<string>, location: Location, sourceText: string): (r: seq<Issue>)
    ensures |r| <= MAX_ISSUES
    ensures r <= MapAll(matches, IgnoreSet(dictionary), location, sourceText)
    ensures |r| == MAX_ISSUES || r == MapAll(matches, IgnoreSet(dictionary), location, sourceText)
  {
    var all := MapAll(matches, IgnoreSet(dictionary), location, sourceText);
    if |all| <= MAX_ISSUES then all else all[..MAX_ISSUES]
  }

  /** No word of the dictionary normalises to the same non-empty token as `evidence`. */
  ghost predicate NotIgnored(evidence: string, dictionary: seq<string>) {
    forall w :: w in dictionary ==>
      (NormalizeDictionaryToken(evidence) == [] || NormalizeDictionaryToken(evidence) != NormalizeDictionaryToken(w))
  }

  /**
   * Every returned issue carries the given location and the offset and
   * length of a match of the response, and its evidence does not normalise
   * to a word of the custom dictionary.
   */
  lemma FetchedIssuesShape(matches: seq<LtMatch>, dictionary: seq<string>, location: Location, sourceText: string)
    ensures forall issue :: issue in FetchedIssues(matches, dictionary, location, sourceText) ==>
      && issue.location == Some(location)
      && issue.evidence.Some?
      && NotIgnored(issue.evidence.value, dictionary)
      && exists i :: 0 <= i < |matches| && issue.offset == Some(matches[i].offset) && issue.length == Some(matches[i].length)
  {
    var ignore := IgnoreSet(dictionary);
    var all := MapAll(matches, ignore, location, sourceText);
    forall issue | issue in FetchedIssues(matches, dictionary, location, sourceText)
      ensures && issue.location == Some(location)
        && issue.evidence.Some?
        && NotIgnored(issue.evidence.value, dictionary)
        && exists i :: 0 <= i < |matches| && issue.offset == Some(matches[i].offset) && issue.length == Some(matches[i].length)
    {
      var k :| 0 <= k < |all| && all[k] == issue;
      var i := MapAllFrom(matches, ignore, location, sourceText, k);
      forall w | w in dictionary
        ensures NormalizeDictionaryToken(issue.evidence.value) == [] ||
          NormalizeDictionaryToken(issue.evidence.value) != NormalizeDictionaryToken(w)
      {
        var j :| 0 <= j < |dictionary| && dictionary[j] == w;
        if NormalizeDictionaryToken(w) != [] {
          assert NormalizeDictionaryToken(w) in ignore;
        }
      }
    }
  }

  /** An empty response, or one where no match has a category, gives no issues. */
  lemma NoMatchesNoIssues(matches: seq<LtMatch>, dictionary: seq<string>, location: Location, sourceText: string)
    requires forall i :: 0 <= i < |matches| ==> MapCategory(matches[i]).None?
    ensures FetchedIssues(matches, dictionary, location, sourceText) == []
  {
    var all := MapAll(matches, IgnoreSet(dictionary), location, sourceText);
    if all != [] {
      var i := MapAllFrom(matches, IgnoreSet(dictionary), location, sourceText, 0);
    }
  }
}
