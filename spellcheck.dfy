/**
 * The offline spelling analyzer: tokenising, the rules that skip a token,
 * the optimal-string-alignment (restricted Damerau-Levenshtein) distance,
 * the dictionary candidates and the suggestion they give, the confusable
 * phrases, and the pipeline that turns a text into at most `maxIssues`
 * issues.
 *
 * The word tables of the dictionary module are parameters (`SpellData`),
 * and so is the Unicode letter test behind `\p{L}`.
 */
module Spellcheck {
  import opened Wrappers
  import opened JsText

  const MAX_SUGGESTION_DISTANCE: nat := 2
  const DEFAULT_MAX_ISSUES: int := 8

  /** The dictionary tables: `COMMON_WORDS` (in order), `COMMON_MISSPELLINGS`, `BUILT_IN_ALLOWLIST`, and `\p{L}`. */
  datatype SpellData = SpellData(
    commonWords: seq<string>,
    misspellings: map<string, string>,
    allowlist: seq<string>,
    isLetter: char -> bool)

  datatype SpellingOptions = SpellingOptions(strict: bool, customDictionary: seq<string>, maxIssues: Option<int>)

  datatype SpellingSeverity = SpellLow | SpellMedium

  /** The messages the analyzer writes; `MessageText` spells them out. */
  datatype SpellMessage =
    | Confusion(kind: ConfusionKind)
    | PossibleTypo(raw: string, fix: string)
    | NonEnglish
    | ManyUnknownTerms

  function MessageText(m: SpellMessage): string {
    match m
    case Confusion(kind) => ConfusionMessage(kind)
    case PossibleTypo(raw, fix) => "Possible typo: \"" + raw + "\" -> \"" + fix + "\""
    case NonEnglish => "Language appears non-English; typo checks are limited."
    case ManyUnknownTerms => "Email contains many unknown terms; typo confidence is reduced."
  }

  datatype SpellingIssue = SpellingIssue(severity: SpellingSeverity, message: SpellMessage, evidence: Option<string>)

  datatype Token = Token(raw: string, normalized: string, index: nat)

  // ---------------------------------------------------------------------------
  // Words and tokens
  // ---------------------------------------------------------------------------

  /** The number of leading apostrophes. */
  function LeadingQuotes(s: string): (n: nat)
    ensures n <= |s|
    ensures forall i :: 0 <= i < n ==> s[i] == '\''
    ensures n < |s| ==> s[n] != '\''
  {
    if s != [] && s[0] == '\'' then 1 + LeadingQuotes(s[1..]) else 0
  }

  /** Where the trailing apostrophes start. */
  function QuotesStart(s: string): (n: nat)
    ensures n <= |s|
    ensures forall i :: n <= i < |s| ==> s[i] == '\''
    ensures n > 0 ==> s[n - 1] != '\''
  {
    if s != [] && s[|s| - 1] == '\'' then QuotesStart(s[..|s| - 1]) else |s|
  }

  /** `normalizeWord`: lower case, without leading and trailing apostrophes. */
  function NormalizeWord(word: string): (r: string)
    ensures |r| <= |word|
    ensures r == [] || (r[0] != '\'' && r[|r| - 1] != '\'')
    ensures forall i :: 0 <= i < |r| ==> !IsAsciiUpper(r[i])
  {
    var s := Lower(word);
    var lo := LeadingQuotes(s);
    var hi := QuotesStart(s);
    if lo < hi then s[lo..hi] else ""
  }

  /** The character class `[A-Za-z'-]`. */
  predicate IsTokenChar(c: char) {
    IsAsciiLetter(c) || c == '\'' || c == '-'
  }

  /** The end of the run of token characters starting at `p`. */
  function RunEnd(text: string, p: nat): (e: nat)
    requires p <= |text|
    ensures p <= e <= |text|
    ensures forall k :: p <= k < e ==> IsTokenChar(text[k])
    ensures e < |text| ==> !IsTokenChar(text[e])
    decreases |text| - p
  {
    if p < |text| && IsTokenChar(text[p]) then RunEnd(text, p + 1) else p
  }

  /** `/[A-Za-z][A-Za-z'-]{1,}/` matches at `p`. */
  predicate TokenStartsAt(text: string, p: nat) {
    p + 1 < |text| && IsAsciiLetter(text[p]) && IsTokenChar(text[p + 1])
  }

  function MakeToken(text: string, p: nat, e: nat): Token
    requires p <= e <= |text|
  {
    Token(text[p..e], NormalizeWord(text[p..e]), p)
  }

  /** The matches of the global token expression from position `p` on, leftmost first and greedy. */
  function TokensFrom(text: string, p: nat): seq<Token>
    requires p <= |text|
    decreases |text| - p
  {
    if p == |text| then []
    else if TokenStartsAt(text, p) then
      var e := RunEnd(text, p + 1);
      [MakeToken(text, p, e)] + TokensFrom(text, e)
    else TokensFrom(text, p + 1)
  }

  function Tokens(text: string): seq<Token> {
    TokensFrom(text, 0)
  }

  /** A token as the expression matches it at its index: a letter, then the whole run of `[A-Za-z'-]` after it. */
  ghost predicate WellFormedToken(t: Token, text: string) {
    TokenStartsAt(text, t.index) && t == MakeToken(text, t.index, RunEnd(text, t.index + 1))
  }

  /** What a well-formed token holds: at least two characters, a letter first, only `[A-Za-z'-]`. */
  lemma TokenChars(t: Token, text: string)
    requires WellFormedToken(t, text)
    ensures t.index + |t.raw| <= |text| && text[t.index..t.index + |t.raw|] == t.raw
    ensures |t.raw| >= 2 && IsAsciiLetter(t.raw[0])
    ensures forall k :: 0 <= k < |t.raw| ==> IsTokenChar(t.raw[k])
  {
    var e := RunEnd(text, t.index + 1);
    assert forall k :: 0 <= k < |t.raw| ==> t.raw[k] == text[t.index + k];
  }

  /** Tokens are well formed and lie at or after `p`. */
  lemma {:induction false} TokensFromWellFormed(text: string, p: nat)
    requires p <= |text|
    ensures forall t :: t in TokensFrom(text, p) ==> WellFormedToken(t, text) && t.index >= p
    decreases |text| - p
  {
    if p < |text| {
      if TokenStartsAt(text, p) {
        TokensFromWellFormed(text, RunEnd(text, p + 1));
      } else {
        TokensFromWellFormed(text, p + 1);
      }
    }
  }

  /** Tokens lie at or after `p`. */
  lemma {:induction false} TokensFromAfter(text: string, p: nat)
    requires p <= |text|
    ensures forall k :: 0 <= k < |TokensFrom(text, p)| ==> TokensFrom(text, p)[k].index >= p
    decreases |text| - p
  {
    if p < |text| {
      if TokenStartsAt(text, p) {
        TokensFromAfter(text, RunEnd(text, p + 1));
      } else {
        TokensFromAfter(text, p + 1);
      }
    }
  }

  /** Tokens in text order, none overlapping the next. */
  ghost predicate InTextOrder(ts: seq<Token>) {
    forall i, j :: 0 <= i < j < |ts| ==> ts[i].index + |ts[i].raw| <= ts[j].index
  }

  /** A token that ends before every token of an ordered sequence can be put in front of it. */
  lemma InTextOrderCons(t: Token, rest: seq<Token>)
    requires InTextOrder(rest)
    requires forall k :: 0 <= k < |rest| ==> rest[k].index >= t.index + |t.raw|
    ensures InTextOrder([t] + rest)
  {
    var ts := [t] + rest;
    forall i, j | 0 <= i < j < |ts|
      ensures ts[i].index + |ts[i].raw| <= ts[j].index
    {
      assert ts[j] == rest[j - 1];
      if i > 0 {
        assert ts[i] == rest[i - 1];
      }
    }
  }

  /** Tokens come in text order and do not overlap. */
  lemma {:induction false} TokensFromOrdered(text: string, p: nat)
    requires p <= |text|
    ensures InTextOrder(TokensFrom(text, p))
    decreases |text| - p
  {
    if p < |text| {
      if TokenStartsAt(text, p) {
        var e := RunEnd(text, p + 1);
        TokensFromOrdered(text, e);
        TokensFromAfter(text, e);
        var t := MakeToken(text, p, e);
        assert t.index + |t.raw| == e;
        InTextOrderCons(t, TokensFrom(text, e));
        assert TokensFrom(text, p) == [t] + TokensFrom(text, e);
      } else {
        TokensFromOrdered(text, p + 1);
        assert TokensFrom(text, p) == TokensFrom(text, p + 1);
      }
    }
  }

  lemma TokensShape(text: string)
    ensures forall t :: t in Tokens(text) ==> WellFormedToken(t, text)
    ensures InTextOrder(Tokens(text))
  {
    assert Tokens(text) == TokensFrom(text, 0);
    TokensFromWellFormed(text, 0);
    TokensFromOrdered(text, 0);
  }

  /** `collectTokens`: one `regex.exec` per iteration. */
  method CollectTokens(text: string) returns (tokens: seq<Token>)
    ensures tokens == Tokens(text)
  {
    tokens := [];
    var p := 0;
    while p < |text|
      invariant p <= |text|
      invariant tokens + TokensFrom(text, p) == Tokens(text)
      decreases |text| - p
    {
      if TokenStartsAt(text, p) {
        var e := p + 2;
        while e < |text| && IsTokenChar(text[e])
          invariant p + 2 <= e <= |text|
          invariant forall k :: p + 1 <= k < e ==> IsTokenChar(text[k])
          decreases |text| - e
        {
          e := e + 1;
        }
        RunEndUnique(text, p + 1, e);
        var t := MakeToken(text, p, e);
        TokensFromAppend(tokens, t, text, p, e);
        tokens := tokens + [t];
        p := e;
      } else {
        p := p + 1;
      }
    }
  }

  lemma TokensFromAppend(tokens: seq<Token>, t: Token, text: string, p: nat, e: nat)
    requires TokenStartsAt(text, p) && e == RunEnd(text, p + 1) && t == MakeToken(text, p, e)
    ensures tokens + TokensFrom(text, p) == (tokens + [t]) + TokensFrom(text, e)
  {
    assert TokensFrom(text, p) == [t] + TokensFrom(text, e);
  }

  lemma RunEndUnique(text: string, p: nat, e: nat)
    requires p <= e <= |text|
    requires forall k :: p <= k < e ==> IsTokenChar(text[k])
    requires e < |text| ==> !IsTokenChar(text[e])
    ensures RunEnd(text, p) == e
  {
    var r := RunEnd(text, p);
    assert !(r < e) && !(e < r);
  }

  // ---------------------------------------------------------------------------
  // Language and skip rules
  // ---------------------------------------------------------------------------

  function CountWhere(text: string, p: char -> bool): (n: nat)
    ensures n <= |text|
  {
    if text == [] then 0 else (if p(text[0]) then 1 else 0) + CountWhere(text[1..], p)
  }

  /** `isMostlyEnglish`: fewer than 25 letters, or at least three quarters of them A-Z/a-z. */
  predicate IsMostlyEnglish(text: string, isLetter: char -> bool) {
    var letters := CountWhere(text, isLetter);
    var latin := CountWhere(text, IsAsciiLetter);
    letters < 25 || 4 * latin >= 3 * letters
  }

  /** Whether `s` starts with `prefix` (lower-case ASCII), ignoring ASCII case. */
  predicate StartsWithIgnoringCase(s: string, prefix: string) {
    |prefix| <= |s| && Lower(s[..|prefix|]) == prefix
  }

  /** `isUrlLike`. */
  predicate IsUrlLike(text: string) {
    StartsWithIgnoringCase(text, "http://") || StartsWithIgnoringCase(text, "https://")
    || StartsWithIgnoringCase(text, "www.")
  }

  /** The end of the run of non-whitespace characters starting at `p`. */
  function NonSpaceEnd(text: string, p: nat): (e: nat)
    requires p <= |text|
    ensures p <= e <= |text|
    ensures forall k :: p <= k < e ==> !IsWhitespace(text[k])
    ensures e < |text| ==> IsWhitespace(text[e])
    decreases |text| - p
  {
    if p < |text| && !IsWhitespace(text[p]) then NonSpaceEnd(text, p + 1) else p
  }

  /** `\S+@\S+\.\S+` matches with its '@' at `sign`: a non-space before it, and a '.' later in the same run with a non-space after it. */
  predicate EmailAt(text: string, sign: nat) {
    && 0 < sign < |text| && text[sign] == '@' && !IsWhitespace(text[sign - 1])
    && var e := NonSpaceEnd(text, sign + 1);
      exists dot :: sign + 2 <= dot && dot + 1 < e && text[dot] == '.'
  }

  /** `isEmailLike`. */
  predicate IsEmailLike(text: string) {
    exists sign :: 0 <= sign < |text| && EmailAt(text, sign)
  }

  /** `/\d/.test(raw)`. */
  predicate HasDigit(raw: string) {
    exists k :: 0 <= k < |raw| && IsAsciiDigit(raw[k])
  }

  /** `isLikelyAcronym`: no lower-case letter and at most six characters. */
  predicate IsLikelyAcronym(raw: string) {
    raw == Upper(raw) && |raw| <= 6
  }

  /** `/[.!?\n]\s*$/`: a sentence mark, then nothing but whitespace to the end. */
  predicate EndsSentence(s: string) {
    |s| > 0 && (s[|s| - 1] in ".!?\n" || (IsWhitespace(s[|s| - 1]) && EndsSentence(s[..|s| - 1])))
  }

  function Max(a: int, b: int): int {
    if a >= b then a else b
  }

  /**
   * The proper-noun test with the sentence-start window ending at `windowEnd`:
   * a capital then a small letter, not at a sentence start, after a space or
   * a line break.
   */
  predicate ProperNounBefore(token: Token, sourceText: string, windowEnd: int) {
    if !(|token.raw| >= 2 && IsAsciiUpper(token.raw[0]) && IsAsciiLower(token.raw[1])) then false
    else
      var prevChar := CharAt(sourceText, token.index - 1);
      var startsSentence := token.index == 0 || EndsSentence(Slice(sourceText, Max(0, token.index - 3), windowEnd));
      !startsSentence && (prevChar == Some(' ') || prevChar == Some('\n'))
  }

  /** `isLikelyProperNoun` as written: the window `slice(index - 3, index + 1)` includes the token's first letter. */
  predicate IsLikelyProperNounAsWritten(token: Token, sourceText: string) {
    ProperNounBefore(token, sourceText, token.index + 1)
  }

  /** `isLikelyProperNoun` as intended: the window is the three characters before the token. */
  predicate IsLikelyProperNoun(token: Token, sourceText: string) {
    ProperNounBefore(token, sourceText, token.index)
  }

  /**
   * As written, the window ends in the token's capital letter, so it never
   * ends a sentence: every capitalised word after a space or line break,
   * other than at the very start, counts as a proper noun.
   */
  lemma ProperNounAsWrittenIgnoresSentences(token: Token, sourceText: string)
    requires WellFormedToken(token, sourceText)
    ensures IsLikelyProperNounAsWritten(token, sourceText) <==>
      && IsAsciiUpper(token.raw[0]) && IsAsciiLower(token.raw[1])
      && token.index > 0
      && (sourceText[token.index - 1] == ' ' || sourceText[token.index - 1] == '\n')
  {
    TokenChars(token, sourceText);
    var i := token.index as int;
    assert sourceText[i] == token.raw[0];
    var w := Slice(sourceText, Max(0, i - 3), i + 1);
    assert w == sourceText[Max(0, i - 3)..i + 1];
    assert w[|w| - 1] == sourceText[i];
  }

  /**
   * A worked example of `ProperNounAsWrittenIgnoresSentences`, which covers
   * every input: "World" in "Hello. World", a capital after a full stop, is
   * taken for a proper noun as written, and not as intended.
   */
  lemma ProperNounAfterFullStop()
    ensures IsLikelyProperNounAsWritten(Token("World", "world", 7), "Hello. World")
    ensures !IsLikelyProperNoun(Token("World", "world", 7), "Hello. World")
  {
    var text := "Hello. World";
    var asWritten, intended := Slice(text, 4, 8), Slice(text, 4, 7);
    assert asWritten == text[4..8] && intended == text[4..7];
    assert asWritten[3] == 'W' && !EndsSentence(asWritten);
    assert intended[2] == ' ' && intended[..2] == "o.";
    assert EndsSentence(intended[..2]);
  }

  /** As intended, a capital right after a sentence mark and a space is not a proper noun. */
  lemma ProperNounAfterSentenceMark(token: Token, sourceText: string)
    requires token.index >= 2 && token.index <= |sourceText|
    requires sourceText[token.index - 2] in ".!?" && sourceText[token.index - 1] == ' '
    ensures !IsLikelyProperNoun(token, sourceText)
  {
    var i := token.index as int;
    var w := Slice(sourceText, Max(0, i - 3), i);
    assert w == sourceText[Max(0, i - 3)..i];
    assert w[|w| - 1] == ' ' && w[..|w| - 1][|w| - 2] == sourceText[i - 2];
    assert EndsSentence(w[..|w| - 1]);
  }

  /** A run of `[A-Za-z'-]` starts with no URL scheme and no "www.". */
  lemma TokenTextNoUrl(r: string)
    requires forall k :: 0 <= k < |r| ==> IsTokenChar(r[k])
    ensures !IsUrlLike(r)
  {
    if |r| >= 4 {
      assert Lower(r[..4])[3] != '.';
    }
    if |r| >= 7 {
      assert Lower(r[..7])[4] != ':';
    }
    if |r| >= 8 {
      assert Lower(r[..8])[5] != ':';
    }
  }

  /** The characters of a token rule out the URL, e-mail and digit tests. */
  lemma TokenIsNoUrlEmailOrNumber(token: Token, sourceText: string)
    requires WellFormedToken(token, sourceText)
    ensures !IsUrlLike(token.raw) && !IsEmailLike(token.raw) && !HasDigit(token.raw)
  {
    TokenChars(token, sourceText);
    TokenTextNoUrl(token.raw);
    assert forall k :: 0 <= k < |token.raw| ==> token.raw[k] != '@' && !IsAsciiDigit(token.raw[k]);
  }

  /** `BUILT_IN_ALLOWLIST` together with the lower-cased custom terms. */
  function IgnoreSet(allowlist: seq<string>, customDictionary: seq<string>): (r: set<string>)
    ensures forall w :: w in allowlist ==> w in r
    ensures forall t :: t in customDictionary ==> Lower(t) in r
    ensures forall w :: w in r ==> w in allowlist || exists t :: t in customDictionary && Lower(t) == w
  {
    (set w | w in allowlist) + (set t | t in customDictionary :: Lower(t))
  }

  /** Which sentence-start window the proper-noun test reads: the one written, or the one intended. */
  datatype ProperNounWindow = AsWritten | Intended

  /** The proper-noun test with the chosen window. */
  predicate ProperNounWith(window: ProperNounWindow, token: Token, sourceText: string) {
    match window
    case AsWritten => IsLikelyProperNounAsWritten(token, sourceText)
    case Intended => IsLikelyProperNoun(token, sourceText)
  }

  /** `shouldSkipToken`, with the proper-noun test of the chosen window. */
  predicate ShouldSkipToken(token: Token, sourceText: string, ignore: set<string>, window: ProperNounWindow) {
    || |token.normalized| < 3
    || token.normalized in ignore
    || IsLikelyAcronym(token.raw)
    || ProperNounWith(window, token, sourceText)
    || IsUrlLike(token.raw) || IsEmailLike(token.raw)
    || HasDigit(token.raw)
  }

  /** `isLikelyAcronym` holds exactly for a word of at most six characters with no small letter. */
  lemma AcronymExactly(raw: string)
    ensures IsLikelyAcronym(raw) <==> |raw| <= 6 && forall k :: 0 <= k < |raw| ==> !IsAsciiLower(raw[k])
  {
    if |raw| <= 6 && forall k :: 0 <= k < |raw| ==> !IsAsciiLower(raw[k]) {
      assert Upper(raw) == raw;
    }
    if IsLikelyAcronym(raw) {
      forall k | 0 <= k < |raw| ensures !IsAsciiLower(raw[k]) {
        assert raw[k] == Upper(raw)[k];
      }
    }
  }

  /** So a capitalised abbreviation of up to six characters is never checked, whichever window is read. */
  lemma AcronymSkipped(token: Token, sourceText: string, ignore: set<string>, window: ProperNounWindow)
    requires |token.raw| <= 6 && forall k :: 0 <= k < |token.raw| ==> IsAsciiUpper(token.raw[k])
    ensures ShouldSkipToken(token, sourceText, ignore, window)
  {
    AcronymExactly(token.raw);
  }

  // ---------------------------------------------------------------------------
  // Edit distance
  // ---------------------------------------------------------------------------

  function Min(x: nat, y: nat): nat {
    if x <= y then x else y
  }

  /** One cell of the table: the cheapest of deleting, inserting, substituting and, where allowed, swapping. */
  function Cell(del: nat, ins: nat, sub: nat, canSwap: bool, swap: nat): (r: nat)
    ensures r <= del && r <= ins && r <= sub && (canSwap ==> r <= swap)
  {
    var m := Min(Min(del, ins), sub);
    if canSwap then Min(m, swap) else m
  }

  /** The cell holds one of the costs it chooses from. */
  lemma CellChoice(del: nat, ins: nat, sub: nat, canSwap: bool, swap: nat)
    ensures var r := Cell(del, ins, sub, canSwap, swap);
      r == del || r == ins || r == sub || (canSwap && r == swap)
  {
  }

  /** Whether `a[i - 1]` and `b[j - 1]` differ: the cost of a substitution. */
  function Cost(a: string, b: string, i: nat, j: nat): nat
    requires 0 < i <= |a| && 0 < j <= |b|
  {
    if a[i - 1] == b[j - 1] then 0 else 1
  }

  /** Whether the last two characters of `a[..i]` and `b[..j]` are each other swapped. */
  predicate Swapped(a: string, b: string, i: nat, j: nat)
    requires i <= |a| && j <= |b|
  {
    i > 1 && j > 1 && a[i - 1] == b[j - 2] && a[i - 2] == b[j - 1]
  }

  /** Entry `k` of a row, or 0 outside it. */
  function At(row: seq<nat>, k: int): nat {
    if 0 <= k < |row| then row[k] else 0
  }

  /** Row 0 of the table: `d[0][j] = j`. */
  function FirstRow(n: nat): seq<nat> {
    seq(n + 1, j => j)
  }

  /** Cell `j` of row `i`, from the row above (`prev`), the one above that (`prev2`) and the cell to its left. */
  function RowCell(a: string, b: string, i: nat, prev: seq<nat>, prev2: seq<nat>, left: nat, j: nat): nat
    requires 0 < i <= |a| && 0 < j <= |b|
  {
    Cell(At(prev, j) + 1, left + 1, At(prev, j - 1) + Cost(a, b, i, j), Swapped(a, b, i, j), if j > 1 then At(prev2, j - 2) + 1 else 0)
  }

  /** Row `i` of the table, filled left to right after the cells already in `row`. */
  function FillRow(a: string, b: string, i: nat, prev: seq<nat>, prev2: seq<nat>, row: seq<nat>): seq<nat>
    requires 0 < i <= |a| && 0 < |row| <= |b| + 1
    decreases |b| + 1 - |row|
  {
    if |row| == |b| + 1 then row
    else FillRow(a, b, i, prev, prev2, row + [RowCell(a, b, i, prev, prev2, row[|row| - 1], |row|)])
  }

  lemma {:induction false} FillRowShape(a: string, b: string, i: nat, prev: seq<nat>, prev2: seq<nat>, row: seq<nat>)
    requires 0 < i <= |a| && 0 < |row| <= |b| + 1
    ensures var r := FillRow(a, b, i, prev, prev2, row);
      |r| == |b| + 1 && r[..|row|] == row
    decreases |b| + 1 - |row|
  {
    if |row| < |b| + 1 {
      var row' := row + [RowCell(a, b, i, prev, prev2, row[|row| - 1], |row|)];
      FillRowShape(a, b, i, prev, prev2, row');
      var r := FillRow(a, b, i, prev, prev2, row');
      assert r[..|row|] == r[..|row'|][..|row|];
    }
  }

  /** Every cell `FillRow` adds follows the recurrence of `damerauLevenshtein`. */
  lemma {:induction false} FillRowCell(a: string, b: string, i: nat, prev: seq<nat>, prev2: seq<nat>, row: seq<nat>, j: nat)
    requires 0 < i <= |a| && 0 < |row| <= |b| + 1
    requires |row| <= j <= |b|
    ensures var r := FillRow(a, b, i, prev, prev2, row);
      |r| == |b| + 1 && r[j] == RowCell(a, b, i, prev, prev2, r[j - 1], j)
    decreases |b| + 1 - |row|
  {
    var k := |row|;
    var row' := row + [RowCell(a, b, i, prev, prev2, row[k - 1], k)];
    var r := FillRow(a, b, i, prev, prev2, row');
    assert FillRow(a, b, i, prev, prev2, row) == r;
    if j > k {
      FillRowCell(a, b, i, prev, prev2, row', j);
    } else {
      FillRowShape(a, b, i, prev, prev2, row');
      assert r[j] == r[..|row'|][j] && r[j - 1] == r[..|row'|][j - 1];
    }
  }

  /** Rows `0..i` of the table of `a` against `b`. */
  function Rows(a: string, b: string, i: nat): (t: seq<seq<nat>>)
    requires i <= |a|
    ensures |t| == i + 1
  {
    if i == 0 then [FirstRow(|b|)]
    else
      var t := Rows(a, b, i - 1);
      t + [FillRow(a, b, i, t[i - 1], if i > 1 then t[i - 2] else t[i - 1], [i])]
  }

  lemma {:induction false} RowsPrefix(a: string, b: string, i: nat, k: nat)
    requires k <= i <= |a|
    ensures Rows(a, b, i)[..k + 1] == Rows(a, b, k)
    decreases i - k
  {
    if k < i {
      RowsPrefix(a, b, i - 1, k);
      assert Rows(a, b, i)[..i] == Rows(a, b, i - 1);
      assert Rows(a, b, i)[..k + 1] == Rows(a, b, i)[..i][..k + 1];
    }
  }

  /**
   * The optimal-string-alignment table of `damerauLevenshtein`: row `i`, entry
   * `j` is the distance between `a[..i]` and `b[..j]`, counting insertions,
   * deletions, substitutions and swaps of two adjacent characters as one edit each.
   */
  function Table(a: string, b: string): (t: seq<seq<nat>>)
    ensures |t| == |a| + 1
  {
    Rows(a, b, |a|)
  }

  /** `d[i][j]`. */
  function TableAt(a: string, b: string, i: nat, j: nat): nat
    requires i <= |a|
  {
    At(Table(a, b)[i], j)
  }

  function Dist(a: string, b: string): nat {
    TableAt(a, b, |a|, |b|)
  }

  /** The edges of the table: `d[i][0] = i` and `d[0][j] = j`. */
  lemma TableEdges(a: string, b: string, i: nat, j: nat)
    requires i <= |a| && j <= |b|
    ensures TableAt(a, b, i, 0) == i && TableAt(a, b, 0, j) == j
  {
    RowsPrefix(a, b, |a|, i);
    RowsPrefix(a, b, |a|, 0);
    assert Table(a, b)[i] == Rows(a, b, i)[i];
    assert Table(a, b)[0] == Rows(a, b, 0)[0];
    if i > 0 {
      var t := Rows(a, b, i - 1);
      FillRowShape(a, b, i, t[i - 1], if i > 1 then t[i - 2] else t[i - 1], [i]);
      var r := FillRow(a, b, i, t[i - 1], if i > 1 then t[i - 2] else t[i - 1], [i]);
      assert r[0] == r[..1][0];
    }
  }

  /** The inner cells of the table follow the recurrence of `damerauLevenshtein`. */
  lemma TableCell(a: string, b: string, i: nat, j: nat)
    requires 0 < i <= |a| && 0 < j <= |b|
    ensures TableAt(a, b, i, j) == Cell(TableAt(a, b, i - 1, j) + 1, TableAt(a, b, i, j - 1) + 1,
      TableAt(a, b, i - 1, j - 1) + Cost(a, b, i, j),
      Swapped(a, b, i, j), if i > 1 && j > 1 then TableAt(a, b, i - 2, j - 2) + 1 else 0)
  {
    var t := Table(a, b);
    RowsPrefix(a, b, |a|, i);
    var ti := Rows(a, b, i);
    assert t[..i + 1] == ti;
    assert t[i] == ti[i] && t[i - 1] == ti[i - 1] && (i > 1 ==> t[i - 2] == ti[i - 2]);
    var u := Rows(a, b, i - 1);
    assert ti[..i] == u;
    assert u[i - 1] == ti[i - 1] && (i > 1 ==> u[i - 2] == ti[i - 2]);
    FillRowCell(a, b, i, u[i - 1], if i > 1 then u[i - 2] else u[i - 1], [i], j);
  }

  /** `damerauLevenshtein`: the table filled row by row. */
  method DamerauLevenshtein(a: string, b: string) returns (distance: nat)
    ensures distance == Dist(a, b)
  {
        var d := new nat[|a| + 1, |b| + 1]((_, _) => 0);
    for i := 0 to |a| + 1
      invariant forall i' :: 0 <= i' < i ==> d[i', 0] == i'
    {
      d[i, 0] := i;
    }
    for j := 0 to |b| + 1
      invariant forall i' :: 1 <= i' <= |a| ==> d[i', 0] == i'
      invariant forall j' :: 0 <= j' < j ==> d[0, j'] == j'
    {
      d[0, j] := j;
    }
    forall i' | 0 <= i' <= |a|
      ensures TableAt(a, b, i', 0) == i'
    {
      TableEdges(a, b, i', 0);
    }
    forall j' | 0 <= j' <= |b|
      ensures TableAt(a, b, 0, j') == j'
    {
      TableEdges(a, b, 0, j');
    }
    for i := 1 to |a| + 1
      invariant forall i', j' :: 0 <= i' < i && 0 <= j' <= |b| ==> d[i', j'] == TableAt(a, b, i', j')
      invariant forall i' :: i <= i' <= |a| ==> d[i', 0] == i'
    {
      for j := 1 to |b| + 1
        invariant forall i', j' :: 0 <= i' < i && 0 <= j' <= |b| ==> d[i', j'] == TableAt(a, b, i', j')
        invariant forall i' :: i < i' <= |a| ==> d[i', 0] == i'
        invariant forall j' :: 0 <= j' < j ==> d[i, j'] == TableAt(a, b, i, j')
      {
        var cost := if a[i - 1] == b[j - 1] then 0 else 1;
        var del, ins, sub := d[i - 1, j] + 1, d[i, j - 1] + 1, d[i - 1, j - 1] + cost;
        d[i, j] := Min(Min(del, ins), sub);
        if i > 1 && j > 1 && a[i - 1] == b[j - 2] && a[i - 2] == b[j - 1] {
          d[i, j] := Min(d[i, j], d[i - 2, j - 2] + 1);
        }
        TableCell(a, b, i, j);
      }
    }
    distance := d[|a|, |b|];
  }

  /** The distance between prefixes is at most the longer length ... */
  lemma {:induction false} TableUpper(a: string, b: string, i: nat, j: nat)
    requires i <= |a| && j <= |b|
    ensures TableAt(a, b, i, j) <= if i >= j then i else j
    decreases i + j
  {
    TableEdges(a, b, i, j);
    if i > 0 && j > 0 {
      TableCell(a, b, i, j);
      TableUpper(a, b, i - 1, j - 1);
    }
  }

  /** ... and at least the difference of the lengths. */
  lemma {:induction false} TableLower(a: string, b: string, i: nat, j: nat)
    requires i <= |a| && j <= |b|
    ensures TableAt(a, b, i, j) >= if i >= j then i - j else j - i
    decreases i + j
  {
    TableEdges(a, b, i, j);
    if i > 0 && j > 0 {
        TableCell(a, b, i, j);
      CellChoice(TableAt(a, b, i - 1, j) + 1, TableAt(a, b, i, j - 1) + 1, TableAt(a, b, i - 1, j - 1) + Cost(a, b, i, j),
        Swapped(a, b, i, j), if i > 1 && j > 1 then TableAt(a, b, i - 2, j - 2) + 1 else 0);
      TableLower(a, b, i - 1, j);
      TableLower(a, b, i, j - 1);
      TableLower(a, b, i - 1, j - 1);
      if i > 1 && j > 1 {
        TableLower(a, b, i - 2, j - 2);
      }
    }
  }

  /** The distance does not depend on which string comes first. */
  lemma {:induction false} TableSymmetric(a: string, b: string, i: nat, j: nat)
    requires i <= |a| && j <= |b|
    ensures TableAt(a, b, i, j) == TableAt(b, a, j, i)
    decreases i + j
  {
    TableEdges(a, b, i, j);
    TableEdges(b, a, j, i);
    if i > 0 && j > 0 {
      TableCell(a, b, i, j);
      TableCell(b, a, j, i);
      TableSymmetric(a, b, i - 1, j);
      TableSymmetric(a, b, i, j - 1);
      TableSymmetric(a, b, i - 1, j - 1);
      if i > 1 && j > 1 {
        TableSymmetric(a, b, i - 2, j - 2);
      }
    }
  }

  /** The distance between prefixes is zero exactly when they are equal. */
  lemma {:induction false} TableZero(a: string, b: string, i: nat, j: nat)
    requires i <= |a| && j <= |b|
    ensures TableAt(a, b, i, j) == 0 <==> i == j && a[..i] == b[..j]
    decreases i + j
  {
    TableLower(a, b, i, j);
    TableEdges(a, b, i, j);
    if i > 0 && j > 0 {
      TableCell(a, b, i, j);
      TableZero(a, b, i - 1, j - 1);
      assert a[..i] == a[..i - 1] + [a[i - 1]] && b[..j] == b[..j - 1] + [b[j - 1]];
      if TableAt(a, b, i, j) == 0 {
        CellChoice(TableAt(a, b, i - 1, j) + 1, TableAt(a, b, i, j - 1) + 1, TableAt(a, b, i - 1, j - 1) + Cost(a, b, i, j),
          Swapped(a, b, i, j), if i > 1 && j > 1 then TableAt(a, b, i - 2, j - 2) + 1 else 0);
      }
    }
  }

  lemma DistZero(a: string, b: string)
    ensures Dist(a, b) == 0 <==> a == b
  {
    TableZero(a, b, |a|, |b|);
    assert a[..|a|] == a && b[..|b|] == b;
  }

  lemma DistSymmetric(a: string, b: string)
    ensures Dist(a, b) == Dist(b, a)
  {
    TableSymmetric(a, b, |a|, |b|);
  }

  /** Against the empty string the distance is the other length. */
  lemma DistToEmpty(a: string)
    ensures Dist(a, "") == |a| && Dist("", a) == |a|
  {
    TableEdges(a, "", |a|, 0);
    TableEdges("", a, 0, |a|);
  }

  /** Swapping two adjacent, different characters is one edit. */
  lemma Transposition(p: string, x: char, y: char, q: string)
    requires x != y
    ensures Dist(p + [x, y] + q, p + [y, x] + q) == 1
  {
    var a := p + [x, y] + q;
    var b := p + [y, x] + q;
    var n := |p|;
    assert a[..n] == p == b[..n];
    TableZero(a, b, n, n);
    TableCell(a, b, n + 2, n + 2);
    assert Swapped(a, b, n + 2, n + 2);
    for k := n + 2 to |a|
      invariant TableAt(a, b, k, k) <= 1
    {
      assert a[k] == q[k - n - 2] == b[k];
      TableCell(a, b, k + 1, k + 1);
    }
    assert a != b by {
      assert a[n] == x && b[n] == y;
    }
    DistZero(a, b);
  }

  // ---------------------------------------------------------------------------
  // The dictionary index, candidates and suggestions
  // ---------------------------------------------------------------------------

  /** The words of a given length, in dictionary order: a bucket of `INDEX_BY_LENGTH`. */
  function Bucket(words: seq<string>, length: int): (r: seq<string>)
    ensures forall w :: w in r <==> w in words && |w| == length
  {
    if words == [] then []
    else
      var last := words[|words| - 1];
      Bucket(words[..|words| - 1], length) + (if |last| == length then [last] else [])
  }

  /** `index` holds exactly the non-empty buckets of `words`. */
  ghost predicate IsIndexOf(index: map<int, seq<string>>, words: seq<string>) {
    forall length :: (length in index <==> Bucket(words, length) != [])
      && (length in index ==> index[length] == Bucket(words, length))
  }

  /** The loop that builds `INDEX_BY_LENGTH` from `COMMON_WORDS`. */
  method BuildIndex(words: seq<string>) returns (index: map<int, seq<string>>)
    ensures IsIndexOf(index, words)
  {
    index := map[];
    for k := 0 to |words|
      invariant IsIndexOf(index, words[..k])
    {
      var word := words[k];
      var bucket := if |word| in index then index[|word|] else [];
      index := index[|word| := bucket + [word]];
      assert words[..k + 1][..k] == words[..k];
      assert words[..k + 1][k] == word;
    }
    assert words[..|words|] == words;
  }

  /** The first-letter test of `candidateWords`: same first character, or same second character. */
  predicate MatchesStart(candidate: string, word: string) {
    CharAt(candidate, 0) == CharAt(word, 0) || (|candidate| > 1 && |word| > 1 && candidate[1] == word[1])
  }

  /** `bucket.filter(...)` with the first-letter test. */
  function FilterStart(bucket: seq<string>, word: string): (r: seq<string>)
    ensures forall c :: c in r <==> c in bucket && MatchesStart(c, word)
  {
    if bucket == [] then []
    else (if MatchesStart(bucket[0], word) then [bucket[0]] else []) + FilterStart(bucket[1..], word)
  }

  /** The candidates from the first `n` lengths of the window `|word| - 2 .. |word| + 2`. */
  function CandidatesUpTo(word: string, words: seq<string>, n: nat): seq<string> {
    if n == 0 then []
    else CandidatesUpTo(word, words, n - 1) + FilterStart(Bucket(words, |word| - 2 + (n - 1)), word)
  }

  function CandidateList(word: string, words: seq<string>): seq<string> {
    CandidatesUpTo(word, words, 5)
  }

  /** `candidateWords`. */
  method CandidateWords(word: string, index: map<int, seq<string>>, ghost words: seq<string>) returns (candidates: seq<string>)
    requires IsIndexOf(index, words)
    ensures candidates == CandidateList(word, words)
  {
    candidates := [];
    for length := |word| - 2 to |word| + 3
      invariant candidates == CandidatesUpTo(word, words, length - (|word| - 2))
    {
      if length !in index {
        assert Bucket(words, length) == [];
        continue;
      }
      var bucket := index[length];
      candidates := candidates + FilterStart(bucket, word);
    }
  }

  lemma {:induction false} CandidatesUpToMembers(word: string, words: seq<string>, n: nat)
    ensures forall c :: c in CandidatesUpTo(word, words, n) <==>
      c in words && |word| - 2 <= |c| < |word| - 2 + n && MatchesStart(c, word)
  {
    if n > 0 {
      CandidatesUpToMembers(word, words, n - 1);
    }
  }

  /** The candidates are the dictionary words within two of the length that pass the first-letter test. */
  lemma CandidateListMembers(word: string, words: seq<string>, c: string)
    ensures c in CandidateList(word, words) <==>
      c in words && |word| - 2 <= |c| <= |word| + 2 && MatchesStart(c, word)
  {
    CandidatesUpToMembers(word, words, 5);
  }

  /**
   * The first candidate within distance `k` of `word`. The distance is a
   * parameter (it is `Dist`) so that these list facts do not depend on how
   * the distance is computed.
   */
  function FirstWithin(word: string, cs: seq<string>, k: nat, dist: (string, string) -> nat): Option<string> {
    if cs == [] then None
    else if dist(word, cs[0]) <= k then Some(cs[0])
    else FirstWithin(word, cs[1..], k, dist)
  }

  /** The first candidate within `k` is a candidate within `k`; there is none exactly when no candidate is that close. */
  lemma {:induction false} FirstWithinSpec(word: string, cs: seq<string>, k: nat, dist: (string, string) -> nat)
    ensures var r := FirstWithin(word, cs, k, dist);
      && (r.Some? ==> r.value in cs && dist(word, r.value) <= k)
      && (r.None? <==> forall c :: c in cs ==> dist(word, c) > k)
  {
    if cs != [] {
      FirstWithinSpec(word, cs[1..], k, dist);
      assert forall c :: c in cs ==> c == cs[0] || c in cs[1..];
    }
  }

  /** A candidate within `k` with every earlier candidate farther away is the first within `k`. */
  lemma {:induction false} FirstWithinAt(word: string, cs: seq<string>, k: nat, dist: (string, string) -> nat, i: nat)
    requires i < |cs| && dist(word, cs[i]) <= k
    requires forall i' :: 0 <= i' < i ==> dist(word, cs[i']) > k
    ensures FirstWithin(word, cs, k, dist) == Some(cs[i])
  {
    if i > 0 {
      assert forall i' :: 0 <= i' < i - 1 ==> cs[1..][i'] == cs[i' + 1];
      FirstWithinAt(word, cs[1..], k, dist, i - 1);
    }
  }

  lemma {:induction false} FirstWithinAppend(word: string, xs: seq<string>, ys: seq<string>, k: nat, dist: (string, string) -> nat)
    ensures FirstWithin(word, xs + ys, k, dist)
      == if FirstWithin(word, xs, k, dist).Some? then FirstWithin(word, xs, k, dist) else FirstWithin(word, ys, k, dist)
  {
    if xs != [] {
      assert (xs + ys)[0] == xs[0] && (xs + ys)[1..] == xs[1..] + ys;
      FirstWithinAppend(word, xs[1..], ys, k, dist);
    } else {
      assert xs + ys == ys;
    }
  }

  /** What `suggestWord` returns: the first candidate within one edit, else the first within two. */
  function Suggestion(word: string, cs: seq<string>, dist: (string, string) -> nat): Option<string> {
    var near := FirstWithin(word, cs, 1, dist);
    if near.Some? then near else FirstWithin(word, cs, MAX_SUGGESTION_DISTANCE, dist)
  }

  /** A suggestion is a candidate within two edits; there is none exactly when no candidate is that close; one within one edit wins. */
  lemma SuggestionSpec(word: string, cs: seq<string>, dist: (string, string) -> nat)
    ensures var r := Suggestion(word, cs, dist);
      && (r.Some? ==> r.value in cs && dist(word, r.value) <= 2)
      && (r.None? <==> forall c :: c in cs ==> dist(word, c) > 2)
      && ((exists c :: c in cs && dist(word, c) <= 1) ==> r.Some? && dist(word, r.value) <= 1)
  {
    FirstWithinSpec(word, cs, 1, dist);
    FirstWithinSpec(word, cs, 2, dist);
  }

  datatype Best = Best(word: string, distance: nat)

  /** What `best` says about the candidates `xs` scanned so far, when the scan has not stopped. */
  ghost predicate Tracks(word: string, xs: seq<string>, best: Option<Best>, dist: (string, string) -> nat) {
    match best
    case None => FirstWithin(word, xs, 2, dist).None?
    case Some(b) =>
      && b.distance == dist(word, b.word)
      && (b.distance == 0 ==> FirstWithin(word, xs, 1, dist) == Some(b.word))
      && (b.distance == 2 ==> FirstWithin(word, xs, 1, dist).None? && FirstWithin(word, xs, 2, dist) == Some(b.word))
      && (b.distance == 0 || b.distance == 2)
  }

  /** One iteration of the loop of `suggestWord` keeps `Tracks`, or stops on a candidate within one edit. */
  lemma TracksStep(word: string, xs: seq<string>, c: string, best: Option<Best>, dist: (string, string) -> nat)
    requires Tracks(word, xs, best, dist)
    ensures var d := dist(word, c);
      var better := best.None? || d < best.value.distance;
      && (d > 2 ==> Tracks(word, xs + [c], best, dist))
      && (d <= 2 && !better ==> Tracks(word, xs + [c], best, dist))
      && (d <= 2 && better && d != 1 ==> Tracks(word, xs + [c], Some(Best(c, d)), dist))
      && (d == 1 && better ==> FirstWithin(word, xs + [c], 1, dist) == Some(c))
  {
    FirstWithinAppend(word, xs, [c], 1, dist);
    FirstWithinAppend(word, xs, [c], 2, dist);
    FirstWithinSpec(word, xs, 1, dist);
    FirstWithinSpec(word, xs, 2, dist);
    assert [c][0] == c && [c][1..] == [];
  }

  /** A candidate within one edit ahead of every earlier one is the suggestion, whatever follows. */
  lemma StopsAtOne(word: string, xs: seq<string>, ys: seq<string>, c: string, dist: (string, string) -> nat)
    requires FirstWithin(word, xs, 1, dist) == Some(c)
    ensures Suggestion(word, xs + ys, dist) == Some(c)
  {
    FirstWithinAppend(word, xs, ys, 1, dist);
  }

  /** After the whole scan, `best` holds the suggestion. */
  lemma TracksDone(word: string, xs: seq<string>, best: Option<Best>, dist: (string, string) -> nat)
    requires Tracks(word, xs, best, dist)
    ensures Suggestion(word, xs, dist) == if best.Some? then Some(best.value.word) else None
  {
    if best.None? {
      FirstWithinSpec(word, xs, 1, dist);
      FirstWithinSpec(word, xs, 2, dist);
    }
  }

  /** `suggestWord`: the candidates of `word`, then the scan over them. */
  method SuggestWord(word: string, index: map<int, seq<string>>, ghost words: seq<string>) returns (r: Option<string>)
    requires IsIndexOf(index, words)
    ensures r == Suggestion(word, CandidateList(word, words), Dist)
  {
    var cands := CandidateWords(word, index, words);
    r := ScanCandidates(word, cands);
  }

  /** The loop of `suggestWord`: keep the strictly closer candidate, stop at distance one. */
  method ScanCandidates(word: string, cands: seq<string>) returns (r: Option<string>)
    ensures r == Suggestion(word, cands, Dist)
  {
    var best: Option<Best> := None;
    var i := 0;
    while i < |cands|
      invariant 0 <= i <= |cands|
      invariant Tracks(word, cands[..i], best, Dist)
    {
      var candidate := cands[i];
      var distance := DamerauLevenshtein(word, candidate);
      assert cands[..i + 1] == cands[..i] + [candidate];
      TracksStep(word, cands[..i], candidate, best, Dist);
      if distance > MAX_SUGGESTION_DISTANCE {
        i := i + 1;
        continue;
      }
      if best.None? || distance < best.value.distance {
        best := Some(Best(candidate, distance));
        if distance == 1 {
          assert cands == cands[..i + 1] + cands[i + 1..];
          StopsAtOne(word, cands[..i + 1], cands[i + 1..], candidate, Dist);
          return Some(candidate);
        }
      }
      i := i + 1;
    }
    assert cands[..i] == cands;
    TracksDone(word, cands, best, Dist);
    r := if best.Some? then Some(best.value.word) else None;
  }

  // ---------------------------------------------------------------------------
  // Confusable phrases
  // ---------------------------------------------------------------------------

  /** What separates the two words of a pattern: `\s+`, or one literal space. */

  datatype Separator = Spaces | OneSpace
  /** The six entries of `CONFUSION_PATTERNS`. */
  datatype ConfusionKind = YourFor | ItsFor | TheirFor | MoreThen | LessThen | RatherThen

  /** `CONFUSION_PATTERNS`, in order. */
  function ConfusionPatterns(): seq<ConfusionKind> {
    [YourFor, ItsFor, TheirFor, MoreThen, LessThen, RatherThen]
  }

  /** A pattern of the form `/\b<lead><sep>(<alternative>|...)\b/i`. */
  datatype ConfusionPattern = ConfusionPattern(lead: string, sep: Separator, alternatives: seq<string>)

  function PatternOf(kind: ConfusionKind): ConfusionPattern {
    match kind
    case YourFor => ConfusionPattern("your", Spaces, ["welcome", "right", "going", "not", "able"])
    case ItsFor => ConfusionPattern("its", Spaces, ["a", "an", "the", "been", "going"])
    case TheirFor => ConfusionPattern("their", Spaces, ["is", "are", "was", "were"])
    case MoreThen => ConfusionPattern("more", OneSpace, ["then"])
    case LessThen => ConfusionPattern("less", OneSpace, ["then"])
    case RatherThen => ConfusionPattern("rather", OneSpace, ["then"])
  }

  function ConfusionMessage(kind: ConfusionKind): string {
    match kind
    case YourFor => "Use \"you're\" in this phrase."
    case ItsFor => "Use \"it's\" when you mean \"it is\"."
    case TheirFor => "Use \"there\" in this phrase."
    case MoreThen => "Use \"than\" after comparatives (\"more than\")."
    case LessThen => "Use \"than\" after comparatives (\"less than\")."
    case RatherThen => "Use \"than\" in the phrase \"rather than\"."
  }

  /** Whether the character at `p` is a word character (`[A-Za-z0-9_]`); nothing outside the text is. */
  predicate WordAt(text: string, p: int) {
    0 <= p < |text| && IsWordChar(text[p])
  }

  /** `\b` at `p`: a word character on exactly one side. */
  predicate IsBoundary(text: string, p: nat) {
    WordAt(text, p - 1) != WordAt(text, p)
  }

  /**
   * The lower-case literal `lit` at `p`, ignoring case. Without the `u` flag,
   * `/i` folds ASCII letters only, so comparing ASCII lower case is exact.
   */
  predicate LiteralAt(text: string, p: nat, lit: string) {
    p + |lit| <= |text| && Lower(text[p..p + |lit|]) == lit
  }

  /** The end of the run of whitespace starting at `p`. */
  function SpaceRunEnd(text: string, p: nat): (e: nat)
    requires p <= |text|
    ensures p <= e <= |text|
    ensures forall k :: p <= k < e ==> IsWhitespace(text[k])
    ensures e < |text| ==> !IsWhitespace(text[e])
    decreases |text| - p
  {
    if p < |text| && IsWhitespace(text[p]) then SpaceRunEnd(text, p + 1) else p
  }

  /** The alternative `a` matches at `p` and a word boundary follows it. */
  predicate AlternativeAt(text: string, p: nat, a: string) {
    LiteralAt(text, p, a) && IsBoundary(text, p + |a|)
  }

  function Fits(text: string, p: nat): string -> bool {
    a => AlternativeAt(text, p, a)
  }

  /** The first of `alternatives`, in order, that `fits`: how a regular-expression alternation chooses. */
  function FirstFit(alternatives: seq<string>, fits: string -> bool): Option<string> {
    if alternatives == [] then None
    else if fits(alternatives[0]) then Some(alternatives[0])
    else FirstFit(alternatives[1..], fits)
  }

  /** The alternative chosen fits; none is chosen exactly when none fits. */
  lemma {:induction false} FirstFitSpec(alternatives: seq<string>, fits: string -> bool)
    ensures var r := FirstFit(alternatives, fits);
      && (r.Some? ==> r.value in alternatives && fits(r.value))
      && (r.None? <==> forall a :: a in alternatives ==> !fits(a))
  {
    if alternatives != [] {
      FirstFitSpec(alternatives[1..], fits);
      assert forall a :: a in alternatives ==> a == alternatives[0] || a in alternatives[1..];
    }
  }

  /** The end of the first alternative, in pattern order, that matches at `p` and is followed by `\b`. */
  function AlternativeEnd(text: string, p: nat, alternatives: seq<string>): (r: Option<nat>)
    ensures r.Some? ==> p <= r.value <= |text|
  {
    FirstFitSpec(alternatives, Fits(text, p));
    match FirstFit(alternatives, Fits(text, p))
    case Some(a) => Some(p + |a|)
    case None => None
  }

  /** The alternative found matches and ends at a boundary; when none is found, none does. */
  lemma AlternativeEndSpec(text: string, p: nat, alternatives: seq<string>)
    ensures var r := AlternativeEnd(text, p, alternatives);
      && (r.Some? ==> exists a :: a in alternatives && r.value == p + |a| && AlternativeAt(text, p, a))
      && (r.None? ==> forall a :: a in alternatives ==> !AlternativeAt(text, p, a))
  {
    var fits := Fits(text, p);
    FirstFitSpec(alternatives, fits);
    var r := FirstFit(alternatives, fits);
    if r.Some? {
      assert fits(r.value);
    } else {
      forall a | a in alternatives ensures !AlternativeAt(text, p, a) {
        assert !fits(a);
      }
    }
  }

  /**
   * The end of a match of `pat` starting at `s`. The lead is followed by
   * letters, so `\s+` can only give back whitespace that no alternative
   * starts with: the whole run of whitespace is the separator.
   */
  function MatchEnd(text: string, s: nat, pat: ConfusionPattern): (r: Option<nat>)
    ensures r.Some? ==> s + |pat.lead| < r.value <= |text| && LiteralAt(text, s, pat.lead)
  {
    if !(s <= |text| && IsBoundary(text, s) && LiteralAt(text, s, pat.lead)) then None
    else
      var q := s + |pat.lead|;
      var e := match pat.sep
        case Spaces => SpaceRunEnd(text, q)
        case OneSpace => if q < |text| && text[q] == ' ' then q + 1 else q;
      if e == q then None else AlternativeEnd(text, e, pat.alternatives)
  }

  /**
   * The leftmost position `s' >= s` up to `n` where `matchAt` finds a match,
   * with the end of that match.
   */
  function FindFrom(n: nat, matchAt: nat -> Option<nat>, s: nat): (r: Option<(nat, nat)>)
    requires s <= n + 1
    ensures r.Some? ==> s <= r.value.0 <= n && matchAt(r.value.0) == Some(r.value.1)
    decreases n + 1 - s
  {
    if s > n then None
    else
      match matchAt(s)
      case Some(e) => Some((s, e))
      case None => FindFrom(n, matchAt, s + 1)
  }

  /** The match is the leftmost one: nothing matches earlier, and nothing at all up to `n` when there is none. */
  lemma {:induction false} FindFromLeftmost(n: nat, matchAt: nat -> Option<nat>, s: nat)
    requires s <= n + 1
    ensures var r := FindFrom(n, matchAt, s);
      && (r.Some? ==> forall s' :: s <= s' < r.value.0 ==> matchAt(s').None?)
      && (r.None? ==> forall s' :: s <= s' <= n ==> matchAt(s').None?)
    decreases n + 1 - s
  {
    if s <= n && matchAt(s).None? {
      FindFromLeftmost(n, matchAt, s + 1);
    }
  }

  /** `text.match(pattern)?.[0]`: the text of the leftmost match. */
  function FirstMatch(text: string, pat: ConfusionPattern): Option<string> {
    match MatchSpan(text, pat)
    case Some((s, e)) => Some(text[s..e])
    case None => None
  }

  /** The start and end of the leftmost match. */
  function MatchSpan(text: string, pat: ConfusionPattern): (r: Option<(nat, nat)>)
    ensures r.Some? ==> r.value.0 < r.value.1 <= |text|
  {
    FindFrom(|text|, Matcher(text, pat), 0)
  }

  /** Matching `pat` at each position of `text`. */
  function Matcher(text: string, pat: ConfusionPattern): nat -> Option<nat> {
    s => MatchEnd(text, s, pat)
  }

  /**
   * The span is a match of the pattern and no match starts before it;
   * when there is none, the pattern matches nowhere.
   */
  lemma MatchSpanLeftmost(text: string, pat: ConfusionPattern)
    ensures var r := MatchSpan(text, pat);
      && (r.Some? ==> MatchEnd(text, r.value.0, pat) == Some(r.value.1))
      && (r.Some? ==> forall s: nat :: s < r.value.0 ==> MatchEnd(text, s, pat).None?)
      && (r.None? ==> forall s: nat :: MatchEnd(text, s, pat).None?)
  {
    var f := Matcher(text, pat);
    FindFromLeftmost(|text|, f, 0);
    var r := MatchSpan(text, pat);
    if r.Some? {
      forall s: nat | s < r.value.0 ensures MatchEnd(text, s, pat).None? {
        assert f(s).None?;
      }
    } else {
      forall s: nat ensures MatchEnd(text, s, pat).None? {
        if s <= |text| {
          assert f(s).None?;
        }
      }
    }
  }

  /** A match starts with the lead word, ignoring case, at a word boundary. */
  lemma FirstMatchStartsWithLead(text: string, pat: ConfusionPattern)
    requires FirstMatch(text, pat).Some?
    ensures StartsWithIgnoringCase(FirstMatch(text, pat).value, pat.lead)
  {
    MatchSpanLeftmost(text, pat);
    var (s, e) := MatchSpan(text, pat).value;
    var m := text[s..e];
    assert m[..|pat.lead|] == text[s..s + |pat.lead|];
  }

  /**
   * "more then", in any letter case and standing alone as words, is a match
   * of the fourth pattern from its first letter to its last; so a text
   * holding it always gets that pattern's issue, starting no later.
   */
  lemma MoreThenMatches(text: string, s: nat)
    requires LiteralAt(text, s, "more then")
    requires IsBoundary(text, s) && IsBoundary(text, s + 9)
    ensures MatchEnd(text, s, PatternOf(MoreThen)) == Some(s + 9)
    ensures MatchSpan(text, PatternOf(MoreThen)).Some? && MatchSpan(text, PatternOf(MoreThen)).value.0 <= s
  {
    var pat := PatternOf(MoreThen);
    var w := text[s..s + 9];
    assert Lower(w)[4] == ' ' && w[4] == text[s + 4];
    assert text[s..s + 4] == w[..4] && Lower(w[..4]) == Lower(w)[..4];
    assert text[s + 5..s + 9] == w[5..] && Lower(w[5..]) == Lower(w)[5..];
    assert LiteralAt(text, s, pat.lead) && LiteralAt(text, s + 5, "then");
    assert Fits(text, s + 5)("then");
    assert AlternativeEnd(text, s + 5, pat.alternatives) == Some(s + 9);
    MatchSpanLeftmost(text, pat);
  }

  /** The issue a pattern adds when it matches. */
  function ConfusionIssue(text: string, kind: ConfusionKind): Option<SpellingIssue> {
    match FirstMatch(text, PatternOf(kind))
    case Some(m) => Some(SpellingIssue(SpellMedium, Confusion(kind), Some(m)))
    case None => None
  }

  /** What each pattern finds in `text`, in pattern order. */
  function Found(text: string, pats: seq<ConfusionKind>): (r: seq<Option<SpellingIssue>>)
    ensures |r| == |pats|
  {
    seq(|pats|, k requires 0 <= k < |pats| => ConfusionIssue(text, pats[k]))
  }

  function OptionToSeq<T>(o: Option<T>): (r: seq<T>)
    ensures |r| <= 1
  {
    match o
    case Some(v) => [v]
    case None => []
  }

  /** The loop of `addConfusionIssues` over what the patterns found: stop once `output` holds `limit` issues. */
  function AddFound(found: seq<Option<SpellingIssue>>, output: seq<SpellingIssue>, limit: int): seq<SpellingIssue> {
    if found == [] || |output| >= limit then output
    else AddFound(found[1..], output + OptionToSeq(found[0]), limit)
  }

  /** Everything found, in order. */
  function AllFound(found: seq<Option<SpellingIssue>>): seq<SpellingIssue> {
    if found == [] then [] else OptionToSeq(found[0]) + AllFound(found[1..])
  }

  /** `addConfusionIssues`. */
  method AddConfusionIssues(text: string, output: seq<SpellingIssue>, limit: int) returns (result: seq<SpellingIssue>)
    ensures result == AddFound(Found(text, ConfusionPatterns()), output, limit)
  {
    var patterns := ConfusionPatterns();
    ghost var found := Found(text, patterns);
    result := output;
    for k := 0 to |patterns|
      invariant AddFound(found[k..], result, limit) == AddFound(found, output, limit)
    {
      if |result| >= limit {
        return;
      }
      var item := patterns[k];
      var match_ := FirstMatch(text, PatternOf(item));
      assert found[k..][0] == found[k] == ConfusionIssue(text, item);
      assert found[k..][1..] == found[k + 1..];
      ghost var next := result + OptionToSeq(found[k]);
      assert AddFound(found[k..], result, limit) == AddFound(found[k + 1..], next, limit);
      if match_.Some? {
        result := result + [SpellingIssue(SpellMedium, Confusion(item), Some(match_.value))];
      }
      assert result == next;
    }
  }

  /**
   * The issues already in `output` stay first; at most one issue per pattern
   * follows; nothing is added once `limit` is reached, and the loop does not
   * go past it.
   */
  lemma {:induction false} AddFoundBounds(found: seq<Option<SpellingIssue>>, output: seq<SpellingIssue>, limit: int)
    ensures var r := AddFound(found, output, limit);
      && |output| <= |r| && r[..|output|] == output
      && |r| <= |output| + |found|
      && (|output| >= limit ==> r == output)
      && (|output| < limit ==> |r| <= limit)
  {
    if found != [] && |output| < limit {
      var next := output + OptionToSeq(found[0]);
      AddFoundBounds(found[1..], next, limit);
      var r := AddFound(found, output, limit);
      assert r[..|output|] == r[..|next|][..|output|];
    }
  }

  /** Below the limit, everything found is added, in pattern order. */
  lemma {:induction false} AddFoundUnderLimit(found: seq<Option<SpellingIssue>>, output: seq<SpellingIssue>, limit: int)
    requires |output| + |found| <= limit
    ensures AddFound(found, output, limit) == output + AllFound(found)
  {
    if found == [] {
      assert output + [] == output;
    } else {
      var next := output + OptionToSeq(found[0]);
      AddFoundUnderLimit(found[1..], next, limit);
      var o, rest := OptionToSeq(found[0]), AllFound(found[1..]);
      assert AllFound(found) == o + rest;
      assert output + (o + rest) == (output + o) + rest;
    }
  }

  /** Every issue the patterns add is a medium-severity confusion whose message is one of the patterns'. */
  lemma {:induction false} AddFoundIssues(found: seq<Option<SpellingIssue>>, output: seq<SpellingIssue>, limit: int, i: nat)
    requires |output| <= i < |AddFound(found, output, limit)|
    ensures AddFound(found, output, limit)[i] in AllFound(found)
  {
    if found != [] && |output| < limit {
      var next := output + OptionToSeq(found[0]);
      if i < |next| {
        AddFoundBounds(found[1..], next, limit);
        assert AddFound(found, output, limit)[i] == next[i] == found[0].value;
      } else {
        AddFoundIssues(found[1..], next, limit, i);
      }
    }
  }

  /** Every confusion issue in the list is medium-severity and carries the first match of its own pattern. */
  ghost predicate FromPattern(text: string, x: SpellingIssue) {
    && x.severity == SpellMedium
    && x.message.Confusion?
    && x.evidence.Some?
    && x.evidence == FirstMatch(text, PatternOf(x.message.kind))
  }

  lemma {:induction false} AllFoundSound(text: string, found: seq<Option<SpellingIssue>>)
    requires forall k :: 0 <= k < |found| && found[k].Some? ==> FromPattern(text, found[k].value)
    ensures forall x :: x in AllFound(found) ==> FromPattern(text, x)
  {
    if found != [] {
      assert forall k :: 0 <= k < |found| - 1 ==> found[1..][k] == found[k + 1];
      AllFoundSound(text, found[1..]);
    }
  }

  /** What `addConfusionIssues` adds to an empty list are issues of the patterns, each with its first match. */
  lemma ConfusionsSound(text: string, limit: int)
    ensures forall x :: x in AddFound(Found(text, ConfusionPatterns()), [], limit) ==> FromPattern(text, x)
  {
    var found := Found(text, ConfusionPatterns());
    AllFoundSound(text, found);
    forall x | x in AddFound(found, [], limit) ensures FromPattern(text, x) {
      var i :| 0 <= i < |AddFound(found, [], limit)| && AddFound(found, [], limit)[i] == x;
      AddFoundIssues(found, [], limit, i);
    }
  }

  // ---------------------------------------------------------------------------
  // The analyzer
  // ---------------------------------------------------------------------------

  /** What the token loop reads: the text, the ignore set, the tables, the `strict` option and the issue budget. */
  datatype ScanEnv = ScanEnv(
    text: string, ignore: set<string>, data: SpellData, strict: bool, maxIssues: int, window: ProperNounWindow)

  /** The environment `analyzeSpelling` sets up for a text and its options. */
  function EnvOf(text: string, options: SpellingOptions, data: SpellData, window: ProperNounWindow): ScanEnv {
    ScanEnv(text, IgnoreSet(data.allowlist, options.customDictionary), data, options.strict,
      options.maxIssues.GetOr(DEFAULT_MAX_ISSUES), window)
  }

  /** What the token loop decides about one token. */
  datatype Verdict =
    | Skipped                            // skipped by the rules, or a dictionary word
    | Misspelling(issue: SpellingIssue)  // listed in `COMMON_MISSPELLINGS`
    | Suggested(issue: SpellingIssue)    // unknown, and a dictionary word is close
    | Unsuggested                        // unknown, and no dictionary word is close

  /** The body of the token loop of `analyzeSpelling`, as a decision. */
  function Classify(env: ScanEnv, t: Token): Verdict {
    if ShouldSkipToken(t, env.text, env.ignore, env.window) || t.normalized in env.data.commonWords then Skipped
    else if t.normalized in env.data.misspellings && env.data.misspellings[t.normalized] != "" then
      Misspelling(SpellingIssue(SpellMedium, PossibleTypo(t.raw, env.data.misspellings[t.normalized]), Some(t.raw)))
    else
      match Suggestion(t.normalized, CandidateList(t.normalized, env.data.commonWords), Dist)
      case Some(s) =>
        if s != "" then
          Suggested(SpellingIssue(if env.strict then SpellMedium else SpellLow, PossibleTypo(t.raw, s), Some(t.raw)))
        else Unsuggested
      case None => Unsuggested
  }

  /**
   * An issue is only raised for a token that is neither skipped nor in the
   * dictionary, with the raw token as evidence: a listed misspelling with its
   * listed fix at medium severity, or else a dictionary word of nearly the
   * same length within two edits, at medium severity exactly when `strict`.
   */
  lemma ClassifySpec(env: ScanEnv, t: Token)
    ensures Classify(env, t).Misspelling? || Classify(env, t).Suggested? ==>
      && !ShouldSkipToken(t, env.text, env.ignore, env.window)
      && t.normalized !in env.data.commonWords
      && Classify(env, t).issue.evidence == Some(t.raw)
      && Classify(env, t).issue.message.PossibleTypo?
      && Classify(env, t).issue.message.raw == t.raw
    ensures Classify(env, t).Misspelling? ==>
      && t.normalized in env.data.misspellings
      && Classify(env, t).issue.message.fix == env.data.misspellings[t.normalized]
      && Classify(env, t).issue.severity == SpellMedium
    ensures Classify(env, t).Suggested? ==>
      var fix := Classify(env, t).issue.message.fix;
      && (t.normalized !in env.data.misspellings || env.data.misspellings[t.normalized] == "")
      && fix in env.data.commonWords
      && Dist(t.normalized, fix) <= MAX_SUGGESTION_DISTANCE
      && |t.normalized| - 2 <= |fix| <= |t.normalized| + 2
      && (Classify(env, t).issue.severity == SpellMedium <==> env.strict)
    ensures ShouldSkipToken(t, env.text, env.ignore, env.window) || t.normalized in env.data.commonWords ==>
      Classify(env, t) == Skipped
    ensures
      && !ShouldSkipToken(t, env.text, env.ignore, env.window)
      && t.normalized !in env.data.commonWords
      && t.normalized in env.data.misspellings && env.data.misspellings[t.normalized] != ""
      ==> Classify(env, t) == Misspelling(SpellingIssue(SpellMedium, PossibleTypo(t.raw, env.data.misspellings[t.normalized]), Some(t.raw)))
    ensures
      var sug := Suggestion(t.normalized, CandidateList(t.normalized, env.data.commonWords), Dist);
      && !ShouldSkipToken(t, env.text, env.ignore, env.window)
      && t.normalized !in env.data.commonWords
      && (t.normalized !in env.data.misspellings || env.data.misspellings[t.normalized] == "")
      ==> if sug.Some? && sug.value != "" then
            Classify(env, t) == Suggested(SpellingIssue(if env.strict then SpellMedium else SpellLow, PossibleTypo(t.raw, sug.value), Some(t.raw)))
          else Classify(env, t) == Unsuggested
  {
    var cs := CandidateList(t.normalized, env.data.commonWords);
    SuggestionSpec(t.normalized, cs, Dist);
    var sug := Suggestion(t.normalized, cs, Dist);
    if sug.Some? {
      CandidateListMembers(t.normalized, env.data.commonWords, sug.value);
    }
  }

  /** The token loop's state: the confident issues, the low-confidence ones, and the unknown tokens seen. */
  datatype ScanState = ScanState(issues: seq<SpellingIssue>, low: seq<SpellingIssue>, unknown: nat)

  /** The loop's state after a token with verdict `v`. */
  function Step(st: ScanState, v: Verdict): ScanState {
    match v
    case Skipped => st
    case Misspelling(x) => ScanState(st.issues + [x], st.low, st.unknown + 1)
    case Suggested(x) => ScanState(st.issues, st.low + [x], st.unknown + 1)
    case Unsuggested => st.(unknown := st.unknown + 1)
  }

  /**
   * The token loop: stop before a token once the two lists hold `limit`
   * issues together. The verdict on a token is a parameter (it is
   * `Classifier(env)`) so that these list facts do not depend on how a token
   * is judged.
   */
  function Scan(classify: Token -> Verdict, limit: int, st: ScanState, tokens: seq<Token>): ScanState
    decreases |tokens|
  {
    if tokens == [] || |st.issues| + |st.low| >= limit then st
    else Scan(classify, limit, Step(st, classify(tokens[0])), tokens[1..])
  }

  function Classifier(env: ScanEnv): Token -> Verdict {
    t => Classify(env, t)
  }

  /**
   * The loop only appends to both lists, counts each token as unknown at
   * most once, and adds an issue only for a token counted as unknown.
   */
  lemma {:induction false} ScanKeeps(classify: Token -> Verdict, limit: int, st: ScanState, tokens: seq<Token>)
    ensures var r := Scan(classify, limit, st, tokens);
      && |st.issues| <= |r.issues| && r.issues[..|st.issues|] == st.issues
      && |st.low| <= |r.low| && r.low[..|st.low|] == st.low
      && st.unknown <= r.unknown <= st.unknown + |tokens|
      && |r.issues| + |r.low| - (|st.issues| + |st.low|) <= r.unknown - st.unknown
    decreases |tokens|
  {
    if tokens != [] && |st.issues| + |st.low| < limit {
      var next := Step(st, classify(tokens[0]));
      ScanKeeps(classify, limit, next, tokens[1..]);
      var r := Scan(classify, limit, st, tokens);
      assert r.issues[..|st.issues|] == r.issues[..|next.issues|][..|st.issues|];
      assert r.low[..|st.low|] == r.low[..|next.low|][..|st.low|];
    }
  }

  /** The loop does not go past the budget: each token adds at most one issue, and the loop checks before each. */
  lemma {:induction false} ScanBudget(classify: Token -> Verdict, limit: int, st: ScanState, tokens: seq<Token>)
    requires |st.issues| + |st.low| <= limit
    ensures |Scan(classify, limit, st, tokens).issues| + |Scan(classify, limit, st, tokens).low| <= limit
    decreases |tokens|
  {
    if tokens != [] && |st.issues| + |st.low| < limit {
      ScanBudget(classify, limit, Step(st, classify(tokens[0])), tokens[1..]);
    }
  }

  /** A listed misspelling raised for some token of `tokens`. */
  ghost predicate FromMisspelling(classify: Token -> Verdict, tokens: seq<Token>, x: SpellingIssue) {
    exists t :: t in tokens && classify(t) == Misspelling(x)
  }

  /** A dictionary suggestion raised for some token of `tokens`. */
  ghost predicate FromSuggestion(classify: Token -> Verdict, tokens: seq<Token>, x: SpellingIssue) {
    exists t :: t in tokens && classify(t) == Suggested(x)
  }

  /** An issue raised for some token of `tokens`. */
  ghost predicate FromToken(classify: Token -> Verdict, tokens: seq<Token>, x: SpellingIssue) {
    FromMisspelling(classify, tokens, x) || FromSuggestion(classify, tokens, x)
  }

  /**
   * Every confident issue the loop adds is a listed misspelling of one of the
   * tokens it went over, and every low-confidence one a suggestion for one.
   */
  lemma {:induction false} ScanSound(classify: Token -> Verdict, limit: int, st: ScanState, tokens: seq<Token>)
    ensures var r := Scan(classify, limit, st, tokens);
      && (forall x :: x in r.issues ==> x in st.issues || FromMisspelling(classify, tokens, x))
      && (forall x :: x in r.low ==> x in st.low || FromSuggestion(classify, tokens, x))
    decreases |tokens|
  {
    if tokens != [] && |st.issues| + |st.low| < limit {
      var t, rest := tokens[0], tokens[1..];
      var next := Step(st, classify(t));
      ScanSound(classify, limit, next, rest);
      assert t in tokens;
      forall x | FromMisspelling(classify, rest, x) ensures FromMisspelling(classify, tokens, x) {
        var u :| u in rest && classify(u) == Misspelling(x);
        assert u in tokens;
      }
      forall x | FromSuggestion(classify, rest, x) ensures FromSuggestion(classify, tokens, x) {
        var u :| u in rest && classify(u) == Suggested(x);
        assert u in tokens;
      }
    }
  }

  /** Running the loop over `a + b` is running it over `a`, then over `b` from where it stopped. */
  lemma {:induction false} ScanAppend(classify: Token -> Verdict, limit: int, st: ScanState, a: seq<Token>, b: seq<Token>)
    ensures Scan(classify, limit, st, a + b) == Scan(classify, limit, Scan(classify, limit, st, a), b)
    decreases |a|
  {
    if a == [] {
      assert a + b == b;
    } else if |st.issues| + |st.low| < limit {
      assert (a + b)[0] == a[0] && (a + b)[1..] == a[1..] + b;
      ScanAppend(classify, limit, Step(st, classify(a[0])), a[1..], b);
    }
  }

  /**
   * A token the loop reaches while the two lists hold fewer than `limit`
   * issues is judged, and its issue is in the final lists: a listed
   * misspelling among the confident ones, a suggestion among the low ones.
   */
  lemma ScanReaches(classify: Token -> Verdict, limit: int, st: ScanState, tokens: seq<Token>, k: int)
    requires 0 <= k < |tokens|
    requires |Scan(classify, limit, st, tokens[..k]).issues| + |Scan(classify, limit, st, tokens[..k]).low| < limit
    ensures var r := Scan(classify, limit, st, tokens);
      var v := classify(tokens[k]);
      && (v.Misspelling? ==> v.issue in r.issues)
      && (v.Suggested? ==> v.issue in r.low)
  {
    var before := Scan(classify, limit, st, tokens[..k]);
    assert tokens == tokens[..k] + tokens[k..];
    ScanAppend(classify, limit, st, tokens[..k], tokens[k..]);
    var v := classify(tokens[k]);
    var next := Step(before, v);
    assert tokens[k..][0] == tokens[k] && tokens[k..][1..] == tokens[k + 1..];
    var r := Scan(classify, limit, next, tokens[k + 1..]);
    assert r == Scan(classify, limit, st, tokens);
    ScanKeeps(classify, limit, next, tokens[k + 1..]);
    if v.Misspelling? {
      assert v.issue == next.issues[|next.issues| - 1] == r.issues[..|next.issues|][|next.issues| - 1];
    }
    if v.Suggested? {
      assert v.issue == next.low[|next.low| - 1] == r.low[..|next.low|][|next.low| - 1];
    }
  }

  const MANY_UNKNOWN_ISSUE := SpellingIssue(SpellLow, ManyUnknownTerms, None)
  const NON_ENGLISH_ISSUE := SpellingIssue(SpellLow, NonEnglish, None)

  /**
   * After the loop: with at most 35% unknown tokens both lists are kept;
   * otherwise the low-confidence issues are dropped, and when no confident
   * issue is left, the many-unknown-terms notice stands alone.
   */
  function Finish(st: ScanState, count: nat): (r: seq<SpellingIssue>)
    ensures |st.issues| <= |r| && r[..|st.issues|] == st.issues
    ensures forall x :: x in r ==> x in st.issues || x in st.low || x == MANY_UNKNOWN_ISSUE
    ensures MANY_UNKNOWN_ISSUE in r && MANY_UNKNOWN_ISSUE !in st.issues && MANY_UNKNOWN_ISSUE !in st.low ==>
      r == [MANY_UNKNOWN_ISSUE] && st.issues == [] && count > 0 && 20 * st.unknown > 7 * count
    ensures count > 0 && 20 * st.unknown > 7 * count ==>
      forall x :: x in r ==> x in st.issues || x == MANY_UNKNOWN_ISSUE
    ensures count == 0 || 20 * st.unknown <= 7 * count ==> r == st.issues + st.low
    ensures count > 0 && 20 * st.unknown > 7 * count && st.issues == [] ==> r == [MANY_UNKNOWN_ISSUE]
    ensures count > 0 && 20 * st.unknown > 7 * count && st.issues != [] ==> r == st.issues
  {
    if count == 0 || 20 * st.unknown <= 7 * count then st.issues + st.low
    else if st.issues == [] then [MANY_UNKNOWN_ISSUE]
    else st.issues
  }

  /** `xs.slice(0, end)`. */
  function SliceTo<T>(xs: seq<T>, end: int): (r: seq<T>)
    ensures |r| <= |xs| && r == xs[..|r|]
    ensures 0 <= end ==> |r| == if end < |xs| then end else |xs|
  {
    xs[..SliceIndex(|xs|, end)]
  }

  /** The English path of `analyzeSpelling`, before the final slice. */
  function Findings(env: ScanEnv): seq<SpellingIssue> {
    var issues := AddFound(Found(env.text, ConfusionPatterns()), [], env.maxIssues);
    if |issues| >= env.maxIssues then issues
    else
      var tokens := Tokens(env.text);
      Finish(Scan(Classifier(env), env.maxIssues, ScanState(issues, [], 0), tokens), |tokens|)
  }

  /**
   * `analyzeSpelling`, with the proper-noun window `window`: `AsWritten` is
   * the function as written, `Intended` the corrected one. A blank text has
   * no issues and a text not mostly in Latin letters gets only the
   * non-English notice; otherwise at most `maxIssues` issues, none at all for
   * a budget of zero or less.
   */
  function Analyze(text: string, options: SpellingOptions, data: SpellData, window: ProperNounWindow): (r: seq<SpellingIssue>)
    ensures var limit := options.maxIssues.GetOr(DEFAULT_MAX_ISSUES);
      && (limit >= 1 ==> |r| <= limit)
      && (limit <= 0 ==> r == [] || r == [NON_ENGLISH_ISSUE])
  {
    if Trim(text) == [] then []
    else if !IsMostlyEnglish(text, data.isLetter) then [NON_ENGLISH_ISSUE]
    else
      var env := EnvOf(text, options, data, window);
      SliceTo(Findings(env), env.maxIssues)
  }

  /** The body of the token loop: the next state from one token. */
  method CheckToken(env: ScanEnv, st: ScanState, token: Token, index: map<int, seq<string>>) returns (next: ScanState)
    requires IsIndexOf(index, env.data.commonWords)
    ensures next == Step(st, Classify(env, token))
  {
    if ShouldSkipToken(token, env.text, env.ignore, env.window) || token.normalized in env.data.commonWords {
      return st;
    }
    next := CheckUnknown(env, st, token, index);
  }

  /** The rest of the loop body, for a token that is neither skipped nor in the dictionary. */
  method CheckUnknown(env: ScanEnv, st: ScanState, token: Token, index: map<int, seq<string>>) returns (next: ScanState)
    requires IsIndexOf(index, env.data.commonWords)
    requires !ShouldSkipToken(token, env.text, env.ignore, env.window) && token.normalized !in env.data.commonWords
    ensures next == Step(st, Classify(env, token))
  {
    var unknown := st.unknown + 1;
    if token.normalized in env.data.misspellings && env.data.misspellings[token.normalized] != "" {
      var fix := env.data.misspellings[token.normalized];
      return ScanState(st.issues + [SpellingIssue(SpellMedium, PossibleTypo(token.raw, fix), Some(token.raw))], st.low, unknown);
    }
    var suggestion := SuggestWord(token.normalized, index, env.data.commonWords);
    if suggestion.Some? && suggestion.value != "" {
      var severity := if env.strict then SpellMedium else SpellLow;
      return ScanState(st.issues, st.low + [SpellingIssue(severity, PossibleTypo(token.raw, suggestion.value), Some(token.raw))], unknown);
    }
    return st.(unknown := unknown);
  }

  /** `analyzeSpelling`, with `index` the length index of the dictionary. */
  method AnalyzeSpelling(text: string, options: SpellingOptions, data: SpellData, window: ProperNounWindow, index: map<int, seq<string>>)
    returns (result: seq<SpellingIssue>)
    requires IsIndexOf(index, data.commonWords)
    ensures result == Analyze(text, options, data, window)
  {
    var maxIssues := options.maxIssues.GetOr(DEFAULT_MAX_ISSUES);
    if Trim(text) == [] {
      return [];
    }
    if !IsMostlyEnglish(text, data.isLetter) {
      return [NON_ENGLISH_ISSUE];
    }
    var env := ScanEnv(text, IgnoreSet(data.allowlist, options.customDictionary), data, options.strict, maxIssues, window);
    result := AnalyzeEnglish(env, index);
  }

  /** The English path of `analyzeSpelling`: the confusion patterns, the token loop, the gate and the final slice. */
  method AnalyzeEnglish(env: ScanEnv, index: map<int, seq<string>>) returns (result: seq<SpellingIssue>)
    requires IsIndexOf(index, env.data.commonWords)
    ensures result == SliceTo(Findings(env), env.maxIssues)
  {
    var maxIssues := env.maxIssues;
    var issues := AddConfusionIssues(env.text, [], maxIssues);
    if |issues| >= maxIssues {
      return SliceTo(issues, maxIssues);
    }
    var tokens := CollectTokens(env.text);
    var low: seq<SpellingIssue> := [];
    var unknown: nat := 0;
    ghost var start := ScanState(issues, [], 0);
    var i := 0;
    while i < |tokens| && |issues| + |low| < maxIssues
      invariant 0 <= i <= |tokens|
      invariant Scan(Classifier(env), maxIssues, ScanState(issues, low, unknown), tokens[i..]) == Scan(Classifier(env), maxIssues, start, tokens)
    {
      assert tokens[i..][0] == tokens[i] && tokens[i..][1..] == tokens[i + 1..];
      var next := CheckToken(env, ScanState(issues, low, unknown), tokens[i], index);
      issues, low, unknown := next.issues, next.low, next.unknown;
      i := i + 1;
    }
    result := SliceTo(Finish(ScanState(issues, low, unknown), |tokens|), maxIssues);
  }

  /** An issue raised for a token is a possible typo quoting the raw token as evidence; a low one means `strict` is off. */
  lemma FromTokenIsTypo(env: ScanEnv, tokens: seq<Token>, x: SpellingIssue)
    requires FromToken(Classifier(env), tokens, x)
    ensures x.message.PossibleTypo? && x.evidence == Some(x.message.raw)
    ensures x.severity == SpellLow ==> !env.strict
  {
    if FromMisspelling(Classifier(env), tokens, x) {
      var t :| t in tokens && Classifier(env)(t) == Misspelling(x);
      ClassifySpec(env, t);
    } else {
      var t :| t in tokens && Classifier(env)(t) == Suggested(x);
      ClassifySpec(env, t);
    }
  }

  /** Every finding is a pattern's issue or a token's; the many-unknown-terms notice stands alone. */
  lemma FindingsSound(env: ScanEnv)
    ensures var r := Findings(env);
      forall x :: x in r ==>
        || FromPattern(env.text, x)
        || FromToken(Classifier(env), Tokens(env.text), x)
        || (r == [x] && x == MANY_UNKNOWN_ISSUE)
  {
    var issues := AddFound(Found(env.text, ConfusionPatterns()), [], env.maxIssues);
    ConfusionsSound(env.text, env.maxIssues);
    if |issues| < env.maxIssues {
      var tokens := Tokens(env.text);
      var start := ScanState(issues, [], 0);
      var st := Scan(Classifier(env), env.maxIssues, start, tokens);
      ScanSound(Classifier(env), env.maxIssues, start, tokens);
      var r := Finish(st, |tokens|);
      assert r == Findings(env);
      if MANY_UNKNOWN_ISSUE in st.issues || MANY_UNKNOWN_ISSUE in st.low {
        if FromToken(Classifier(env), tokens, MANY_UNKNOWN_ISSUE) {
          FromTokenIsTypo(env, tokens, MANY_UNKNOWN_ISSUE);
        }
        assert false;
      }
    }
  }

  /**
   * Every issue of the analysis is a confusion issue carrying its pattern's
   * first match, or one raised for a token of the text; a notice stands
   * alone.
   */
  lemma AnalyzeSound(text: string, options: SpellingOptions, data: SpellData, window: ProperNounWindow)
    ensures var r := Analyze(text, options, data, window);
      forall x :: x in r ==>
        || FromPattern(text, x)
        || FromToken(Classifier(EnvOf(text, options, data, window)), Tokens(text), x)
        || (r == [x] && (x == NON_ENGLISH_ISSUE || x == MANY_UNKNOWN_ISSUE))
  {
    if Trim(text) != [] && IsMostlyEnglish(text, data.isLetter) {
      var env := EnvOf(text, options, data, window);
      FindingsSound(env);
      var f := Findings(env);
      var r := SliceTo(f, env.maxIssues);
      assert r == Analyze(text, options, data, window);
      forall x | x in r
        ensures FromPattern(text, x) || FromToken(Classifier(env), Tokens(text), x) || (r == [x] && x == MANY_UNKNOWN_ISSUE)
      {
        assert x in f;
      }
    }
  }

  /** With `strict`, every confusion and every typo is of medium severity; only the notices are low. */
  lemma AnalyzeStrict(text: string, options: SpellingOptions, data: SpellData, window: ProperNounWindow)
    requires options.strict
    ensures forall x :: x in Analyze(text, options, data, window) && x.severity == SpellLow ==>
      x == NON_ENGLISH_ISSUE || x == MANY_UNKNOWN_ISSUE
  {
    AnalyzeSound(text, options, data, window);
    var env := EnvOf(text, options, data, window);
    forall x | x in Analyze(text, options, data, window) && x.severity == SpellLow
      ensures x == NON_ENGLISH_ISSUE || x == MANY_UNKNOWN_ISSUE
    {
      if FromToken(Classifier(env), Tokens(text), x) {
        FromTokenIsTypo(env, Tokens(text), x);
      }
    }
  }

  /**
   * A blank text gets nothing; the non-English notice appears exactly for a
   * text that is not blank and not mostly Latin letters, and is then the
   * whole result; the many-unknown
   * notice, when it appears, is the only issue.
   */
  lemma AnalyzeNotices(text: string, options: SpellingOptions, data: SpellData, window: ProperNounWindow)
    ensures Trim(text) == [] ==> Analyze(text, options, data, window) == []
    ensures NON_ENGLISH_ISSUE in Analyze(text, options, data, window) <==> Trim(text) != [] && !IsMostlyEnglish(text, data.isLetter)
    ensures Trim(text) != [] && !IsMostlyEnglish(text, data.isLetter) ==> Analyze(text, options, data, window) == [NON_ENGLISH_ISSUE]
    ensures MANY_UNKNOWN_ISSUE in Analyze(text, options, data, window) ==> Analyze(text, options, data, window) == [MANY_UNKNOWN_ISSUE]
  {
    var r := Analyze(text, options, data, window);
    if Trim(text) != [] && IsMostlyEnglish(text, data.isLetter) {
      var env := EnvOf(text, options, data, window);
      FindingsSound(env);
      var f := Findings(env);
      assert r == SliceTo(f, env.maxIssues);
      if NON_ENGLISH_ISSUE in r {
        assert NON_ENGLISH_ISSUE in f;
        if FromToken(Classifier(env), Tokens(text), NON_ENGLISH_ISSUE) {
          FromTokenIsTypo(env, Tokens(text), NON_ENGLISH_ISSUE);
        }
        assert false;
      }
      if MANY_UNKNOWN_ISSUE in r {
        assert MANY_UNKNOWN_ISSUE in f;
        if FromToken(Classifier(env), Tokens(text), MANY_UNKNOWN_ISSUE) {
          FromTokenIsTypo(env, Tokens(text), MANY_UNKNOWN_ISSUE);
        }
        assert f == [MANY_UNKNOWN_ISSUE];
      }
    }
  }

  /** The loop's final state on the English path (when the confusion issues leave room for it). */
  function ScanOf(env: ScanEnv): ScanState {
    Scan(Classifier(env), env.maxIssues, ScanState(AddFound(Found(env.text, ConfusionPatterns()), [], env.maxIssues), [], 0), Tokens(env.text))
  }

  /**
   * With more than 35% of the tokens unknown, no suggestion is reported: what
   * remains are the confusion issues, the listed misspellings, or the
   * many-unknown notice.
   */
  lemma AnalyzeUnknownGate(text: string, options: SpellingOptions, data: SpellData, window: ProperNounWindow)
    requires Trim(text) != [] && IsMostlyEnglish(text, data.isLetter)
    ensures var env := EnvOf(text, options, data, window);
      var count := |Tokens(text)|;
      count > 0 && 20 * ScanOf(env).unknown > 7 * count ==>
        forall x :: x in Analyze(text, options, data, window) ==>
          FromPattern(text, x) || FromMisspelling(Classifier(env), Tokens(text), x) || x == MANY_UNKNOWN_ISSUE
  {
    var env := EnvOf(text, options, data, window);
    var tokens := Tokens(text);
    var issues := AddFound(Found(text, ConfusionPatterns()), [], env.maxIssues);
    ConfusionsSound(text, env.maxIssues);
    ScanSound(Classifier(env), env.maxIssues, ScanState(issues, [], 0), tokens);
    var r := Analyze(text, options, data, window);
    assert r == SliceTo(Findings(env), env.maxIssues);
    forall x | x in r
      ensures (|tokens| > 0 && 20 * ScanOf(env).unknown > 7 * |tokens|) ==>
        FromPattern(text, x) || FromMisspelling(Classifier(env), tokens, x) || x == MANY_UNKNOWN_ISSUE
    {
      assert x in Findings(env);
    }
  }

  /** The loop's state just before the token at `k` on the English path. */
  function ScanBefore(env: ScanEnv, k: nat): ScanState
    requires k <= |Tokens(env.text)|
  {
    Scan(Classifier(env), env.maxIssues, ScanState(AddFound(Found(env.text, ConfusionPatterns()), [], env.maxIssues), [], 0), Tokens(env.text)[..k])
  }

  /**
   * After the loop and the final slice, a listed misspelling of a token the
   * loop reaches with room is reported; so is a suggestion for one, when at
   * most 35% of the tokens are unknown.
   */
  lemma FinishReports(classify: Token -> Verdict, limit: int, start: ScanState, tokens: seq<Token>, k: int)
    requires start.low == [] && |start.issues| < limit
    requires 0 <= k < |tokens|
    requires |Scan(classify, limit, start, tokens[..k]).issues| + |Scan(classify, limit, start, tokens[..k]).low| < limit
    ensures var st := Scan(classify, limit, start, tokens);
      var r := SliceTo(Finish(st, |tokens|), limit);
      var v := classify(tokens[k]);
      && (v.Misspelling? ==> v.issue in r)
      && (v.Suggested? && 20 * st.unknown <= 7 * |tokens| ==> v.issue in r)
  {
    var st := Scan(classify, limit, start, tokens);
    ScanReaches(classify, limit, start, tokens, k);
    ScanBudget(classify, limit, start, tokens);
    var f := Finish(st, |tokens|);
    var r := SliceTo(f, limit);
    assert |st.issues| <= |r| && r[..|st.issues|] == f[..|st.issues|] == st.issues;
    var v := classify(tokens[k]);
    if v.Misspelling? {
      assert v.issue in r[..|st.issues|];
    }
    if v.Suggested? && 20 * st.unknown <= 7 * |tokens| {
      assert r == f == st.issues + st.low;
    }
  }

  /**
   * The analysis reports what the loop finds: on a text that is not blank
   * and mostly English, a token reached while the issues found so far number
   * fewer than `maxIssues`, not skipped, not a dictionary word and with a
   * listed fix, gives a medium issue quoting the raw token and its fix; a
   * suggestion for such a token is reported when at most 35% of the tokens
   * are unknown.
   */
  lemma AnalyzeReports(text: string, options: SpellingOptions, data: SpellData, window: ProperNounWindow, k: nat)
    requires Trim(text) != [] && IsMostlyEnglish(text, data.isLetter)
    requires k < |Tokens(text)|
    requires var env := EnvOf(text, options, data, window);
      |ScanBefore(env, k).issues| + |ScanBefore(env, k).low| < env.maxIssues
    ensures var env := EnvOf(text, options, data, window);
      var t := Tokens(text)[k];
      var r := Analyze(text, options, data, window);
      && (!ShouldSkipToken(t, text, env.ignore, window) && t.normalized !in data.commonWords
          && t.normalized in data.misspellings && data.misspellings[t.normalized] != "" ==>
            SpellingIssue(SpellMedium, PossibleTypo(t.raw, data.misspellings[t.normalized]), Some(t.raw)) in r)
      && (Classify(env, t).Suggested? && 20 * ScanOf(env).unknown <= 7 * |Tokens(text)| ==> Classify(env, t).issue in r)
  {
    var env := EnvOf(text, options, data, window);
    var tokens := Tokens(text);
    var start := ScanState(AddFound(Found(text, ConfusionPatterns()), [], env.maxIssues), [], 0);
    ScanKeeps(Classifier(env), env.maxIssues, start, tokens[..k]);
    assert |start.issues| < env.maxIssues;
    FinishReports(Classifier(env), env.maxIssues, start, tokens, k);
    ClassifySpec(env, tokens[k]);
    assert Analyze(text, options, data, window) == SliceTo(Finish(ScanOf(env), |tokens|), env.maxIssues);
  }
}
