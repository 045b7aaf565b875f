/**
 * The settings normaliser: whatever is stored (or patched in) becomes a
 * complete, well-formed PauseSettings record.
 *
 * Stored values are JavaScript values; the model keeps only the distinctions
 * `normalizeSettings` makes: a missing field (`undefined` or `null`), a
 * delay that `Number` turns into a finite whole number or into a non-finite
 * one, a keyword value that is an array (of strings) or not.
 */
module Storage {
  import opened Wrappers
  import opened JsText
  import opened Settings

  datatype DelayInput = DelayMissing | DelayNumber(seconds: int) | DelayNotFinite

  datatype KeywordsInput = KeywordsNotArray | KeywordsArray(items: seq<string>)

  /** The stored value: not an object (or `null`), or an object with the four fields read off it. */
  datatype RawSettings =
    | NotAnObject
    | SettingsObject(enabled: Option<bool>, delaySeconds: DelayInput, smartPause: Option<bool>, keywords: KeywordsInput)

  /** The clamp of the stored delay (`Math.round` is the identity on whole seconds). */
  function ClampSeconds(seconds: int): (r: int)
    ensures MIN_DELAY_SECONDS <= r <= MAX_DELAY_SECONDS
    ensures MIN_DELAY_SECONDS <= seconds <= MAX_DELAY_SECONDS ==> r == seconds
    ensures seconds < MIN_DELAY_SECONDS ==> r == MIN_DELAY_SECONDS
    ensures seconds > MAX_DELAY_SECONDS ==> r == MAX_DELAY_SECONDS
  {
    if seconds > MAX_DELAY_SECONDS then MAX_DELAY_SECONDS
    else if seconds < MIN_DELAY_SECONDS then MIN_DELAY_SECONDS
    else seconds
  }

  /** `Number(raw.delaySeconds ?? 5)`, then the clamp, or 5 when it is not finite. */
  function SafeDelay(d: DelayInput): (r: int)
    ensures MIN_DELAY_SECONDS <= r <= MAX_DELAY_SECONDS
    ensures d.DelayNumber? && MIN_DELAY_SECONDS <= d.seconds <= MAX_DELAY_SECONDS ==> r == d.seconds
    ensures d.DelayMissing? || d.DelayNotFinite? ==> r == DEFAULT_DELAY_SECONDS
  {
    match d
    case DelayMissing => ClampSeconds(DEFAULT_DELAY_SECONDS)
    case DelayNumber(n) => ClampSeconds(n)
    case DelayNotFinite => DEFAULT_DELAY_SECONDS
  }

  /** One keyword as stored: trimmed and lower-cased. */
  function CleanKeyword(k: string): string {
    Lower(Trim(k))
  }

  /** A keyword as `normalizeSettings` leaves it: non-empty, trimmed, lower case. */
  ghost predicate IsCleanKeyword(k: string) {
    k != [] && Trim(k) == k && Lower(k) == k
  }

  lemma CleanKeywordIsClean(k: string)
    requires CleanKeyword(k) != []
    ensures IsCleanKeyword(CleanKeyword(k))
  {
    var t := Trim(k);
    var c := Lower(t);
    assert !IsWhitespace(c[0]) && !IsWhitespace(c[|c| - 1]);
    TrimOfTrimmed(c);
    LowerIdempotent(t);
  }

  lemma CleanKeywordOfClean(k: string)
    requires IsCleanKeyword(k)
    ensures CleanKeyword(k) == k
  {
  }

  /** `map(k => k.trim().toLowerCase()).filter(Boolean)`. */
  function CleanKeywords(items: seq<string>): (r: seq<string>)
    ensures forall k :: k in r ==> IsCleanKeyword(k)
    ensures |r| <= |items|
  {
    if items == [] then []
    else
      var c := CleanKeyword(items[0]);
      if c == [] then CleanKeywords(items[1..])
      else
        CleanKeywordIsClean(items[0]);
        [c] + CleanKeywords(items[1..])
  }

  lemma {:induction false} CleanKeywordsOfClean(items: seq<string>)
    requires forall k :: k in items ==> IsCleanKeyword(k)
    ensures CleanKeywords(items) == items
  {
    if items != [] {
      CleanKeywordOfClean(items[0]);
      CleanKeywordsOfClean(items[1..]);
      assert [items[0]] + items[1..] == items;
    }
  }

  /** The index of the first occurrence of `x` in `xs`. */
  function FirstIndex<T(==)>(xs: seq<T>, x: T): (i: nat)
    requires x in xs
    ensures i < |xs| && xs[i] == x
    ensures forall j :: 0 <= j < i ==> xs[j] != x
  {
    if xs[0] == x then 0 else 1 + FirstIndex(xs[1..], x)
  }

  ghost predicate Distinct<T>(xs: seq<T>) {
    forall i, j :: 0 <= i < j < |xs| ==> xs[i] != xs[j]
  }

  /**
   * `[...new Set(xs)]`: every value once, in the order of its first
   * occurrence, and nothing else.
   */
  function Dedupe(xs: seq<string>): (r: seq<string>)
    ensures forall x :: x in r <==> x in xs
    ensures Distinct(r)
    ensures forall i, j :: 0 <= i < j < |r| ==> FirstIndex(xs, r[i]) < FirstIndex(xs, r[j])
  {
    if xs == [] then []
    else
      var init := xs[..|xs| - 1];
      var last := xs[|xs| - 1];
      var d := Dedupe(init);
      FirstIndexOfPrefix(init, xs);
      if last in d then d
      else
        assert FirstIndex(xs, last) == |xs| - 1;
        d + [last]
  }

  lemma FirstIndexOfPrefix<T>(init: seq<T>, xs: seq<T>)
    requires init <= xs
    ensures forall x :: x in init ==> x in xs && FirstIndex(xs, x) == FirstIndex(init, x)
  {
    forall x | x in init ensures x in xs && FirstIndex(xs, x) == FirstIndex(init, x) {
      var i := FirstIndex(init, x);
      assert xs[i] == x;
      FirstIndexUnique(xs, x, i);
    }
  }

  lemma FirstIndexUnique<T>(xs: seq<T>, x: T, i: nat)
    requires i < |xs| && xs[i] == x
    requires forall j :: 0 <= j < i ==> xs[j] != x
    ensures FirstIndex(xs, x) == i
  {
    var f := FirstIndex(xs, x);
    assert !(f < i) && !(i < f);
  }

  lemma {:induction false} DedupeOfDistinct(xs: seq<string>)
    requires Distinct(xs)
    ensures Dedupe(xs) == xs
  {
    if xs != [] {
      var init := xs[..|xs| - 1];
      DedupeOfDistinct(init);
      assert xs[|xs| - 1] !in init;
      assert init + [xs[|xs| - 1]] == xs;
    }
  }

  /** The keywords of the result: cleaned, deduplicated, or the defaults when nothing is left. */
  function NormalizeKeywords(k: KeywordsInput): seq<string> {
    var raw := if k.KeywordsArray? then k.items else DEFAULT_KEYWORDS;
    var keywords := Dedupe(CleanKeywords(raw));
    if |keywords| > 0 then keywords else DEFAULT_KEYWORDS
  }

  /** A string with no upper-case ASCII letter is its own lower case. */
  lemma LowerOfLower(s: string)
    requires forall i :: 0 <= i < |s| ==> !IsAsciiUpper(s[i])
    ensures Lower(s) == s
  {
  }

  lemma KeywordClean(k: string)
    requires k != [] && forall i :: 0 <= i < |k| ==> IsAsciiLower(k[i])
    ensures IsCleanKeyword(k)
  {
    assert IsAsciiLower(k[0]) && IsAsciiLower(k[|k| - 1]);
    TrimOfTrimmed(k);
    LowerOfLower(k);
  }

  lemma DefaultKeywordsClean()
    ensures forall k :: k in DEFAULT_KEYWORDS ==> IsCleanKeyword(k)
    ensures Distinct(DEFAULT_KEYWORDS)
  {
    KeywordClean(DEFAULT_KEYWORDS[0]);
    KeywordClean(DEFAULT_KEYWORDS[1]);
    KeywordClean(DEFAULT_KEYWORDS[2]);
    KeywordClean(DEFAULT_KEYWORDS[3]);
    DefaultKeywordsDistinct();
  }

  lemma DefaultKeywordsDistinct()
    ensures Distinct(DEFAULT_KEYWORDS)
  {
    var d := DEFAULT_KEYWORDS;
    assert |d[0]| == 6 && |d[1]| == 4 && |d[2]| == 12 && |d[3]| == 7;
  }

  /** Stored keywords are non-empty, trimmed, lower case, pairwise different and at least one. */
  lemma NormalizeKeywordsShape(k: KeywordsInput)
    ensures var r := NormalizeKeywords(k);
      && |r| > 0
      && (forall w :: w in r ==> IsCleanKeyword(w))
      && Distinct(r)
  {
    DefaultKeywordsClean();
  }

  /**
   * The kept keywords are exactly the cleaned non-empty entries of the given
   * array, each once, in the order of their first occurrence.
   */
  lemma NormalizeKeywordsOfArray(items: seq<string>)
    requires exists i :: 0 <= i < |items| && CleanKeyword(items[i]) != []
    ensures NormalizeKeywords(KeywordsArray(items)) == Dedupe(CleanKeywords(items))
    ensures forall w :: w in NormalizeKeywords(KeywordsArray(items)) <==>
      exists i :: 0 <= i < |items| && CleanKeyword(items[i]) == w && w != []
  {
    var i :| 0 <= i < |items| && CleanKeyword(items[i]) != [];
    CleanKeywordsMembers(items);
    assert CleanKeyword(items[i]) in CleanKeywords(items);
  }

  lemma CleanKeywordsMembers(items: seq<string>)
    ensures forall w :: w in CleanKeywords(items) <==> exists i :: 0 <= i < |items| && CleanKeyword(items[i]) == w && w != []
  {
    forall w ensures w in CleanKeywords(items) <==> exists i :: 0 <= i < |items| && CleanKeyword(items[i]) == w && w != [] {
      if w in CleanKeywords(items) {
        CleanKeywordsSound(items, w);
      }
      if exists i :: 0 <= i < |items| && CleanKeyword(items[i]) == w && w != [] {
        var i :| 0 <= i < |items| && CleanKeyword(items[i]) == w && w != [];
        CleanKeywordsComplete(items, i);
      }
    }
  }

  /** Every kept keyword is the cleaned form of some item. */
  lemma {:induction false} CleanKeywordsSound(items: seq<string>, w: string)
    requires w in CleanKeywords(items)
    ensures w != [] && exists i :: 0 <= i < |items| && CleanKeyword(items[i]) == w
  {
    var c := CleanKeyword(items[0]);
    if c == [] || w != c {
      CleanKeywordsSound(items[1..], w);
      var i :| 0 <= i < |items[1..]| && CleanKeyword(items[1..][i]) == w;
      assert items[i + 1] == items[1..][i];
    }
  }

  /** The cleaned form of every item is kept unless it is empty. */
  lemma {:induction false} CleanKeywordsComplete(items: seq<string>, i: nat)
    requires i < |items| && CleanKeyword(items[i]) != []
    ensures CleanKeyword(items[i]) in CleanKeywords(items)
  {
    if i > 0 {
      assert items[1..][i - 1] == items[i];
      CleanKeywordsComplete(items[1..], i - 1);
    }
  }

  /**
   * `normalizeSettings`: the delay is in range, and a field that is missing
   * (or an input that is no object at all) takes its default.
   */
  function NormalizeSettings(input: RawSettings): (r: PauseSettings)
    ensures MIN_DELAY_SECONDS <= r.delaySeconds <= MAX_DELAY_SECONDS
    ensures r.enabled == (if input.SettingsObject? && input.enabled.Some? then input.enabled.value else DEFAULT_SETTINGS.enabled)
    ensures r.smartPause == (if input.SettingsObject? && input.smartPause.Some? then input.smartPause.value else DEFAULT_SETTINGS.smartPause)
    ensures input.NotAnObject? ==> r.delaySeconds == DEFAULT_DELAY_SECONDS
    ensures input.SettingsObject? ==> r.delaySeconds == SafeDelay(input.delaySeconds)
  {
    match input
    case NotAnObject =>
      PauseSettings(DEFAULT_SETTINGS.enabled, SafeDelay(DelayMissing), DEFAULT_SETTINGS.smartPause,
        NormalizeKeywords(KeywordsNotArray))
    case SettingsObject(enabled, delay, smartPause, keywords) =>
      PauseSettings(enabled.GetOr(DEFAULT_SETTINGS.enabled), SafeDelay(delay),
        smartPause.GetOr(DEFAULT_SETTINGS.smartPause), NormalizeKeywords(keywords))
  }

  /** A record `normalizeSettings` could have produced. */
  ghost predicate IsNormal(s: PauseSettings) {
    && MIN_DELAY_SECONDS <= s.delaySeconds <= MAX_DELAY_SECONDS
    && |s.keywords| > 0
    && (forall k :: k in s.keywords ==> IsCleanKeyword(k))
    && Distinct(s.keywords)
  }

  /** Anything that is not an object normalises to the defaults. */
  lemma NormalizeNonObject()
    ensures NormalizeSettings(NotAnObject) == DEFAULT_SETTINGS
  {
    DefaultKeywordsClean();
    CleanKeywordsOfClean(DEFAULT_KEYWORDS);
    DedupeOfDistinct(DEFAULT_KEYWORDS);
  }

  /** A keyword list that the cleaning leaves empty, or no list at all, gives the default keywords. */
  lemma NormalizeKeywordsDefault(k: KeywordsInput)
    requires k.KeywordsArray? ==> forall i :: 0 <= i < |k.items| ==> CleanKeyword(k.items[i]) == []
    ensures NormalizeKeywords(k) == DEFAULT_KEYWORDS
  {
    DefaultKeywordsClean();
    CleanKeywordsOfClean(DEFAULT_KEYWORDS);
    DedupeOfDistinct(DEFAULT_KEYWORDS);
    if k.KeywordsArray? {
      CleanKeywordsOfBlank(k.items);
    }
  }

  lemma {:induction false} CleanKeywordsOfBlank(items: seq<string>)
    requires forall i :: 0 <= i < |items| ==> CleanKeyword(items[i]) == []
    ensures CleanKeywords(items) == []
  {
    if items != [] {
      CleanKeywordsOfBlank(items[1..]);
    }
  }

  lemma NormalizeSettingsIsNormal(input: RawSettings)
    ensures IsNormal(NormalizeSettings(input))
  {
    match input
    case NotAnObject =>
      NormalizeKeywordsShape(KeywordsNotArray);
    case SettingsObject(_, _, _, keywords) =>
      NormalizeKeywordsShape(keywords);
  }

  /** A settings record as it is stored back. */
  function ToRaw(s: PauseSettings): RawSettings {
    SettingsObject(Some(s.enabled), DelayNumber(s.delaySeconds), Some(s.smartPause), KeywordsArray(s.keywords))
  }

  /** A normal record is a fixed point of normalisation. */
  lemma NormalizeNormal(s: PauseSettings)
    requires IsNormal(s)
    ensures NormalizeSettings(ToRaw(s)) == s
  {
    NormalizeKeywordsOfNormal(s.keywords);
  }

  lemma NormalizeKeywordsOfNormal(ks: seq<string>)
    requires |ks| > 0 && (forall k :: k in ks ==> IsCleanKeyword(k)) && Distinct(ks)
    ensures NormalizeKeywords(KeywordsArray(ks)) == ks
  {
    CleanKeywordsOfClean(ks);
    DedupeOfDistinct(ks);
  }

  /** Normalising an already normalised record changes nothing. */
  lemma NormalizeIdempotent(input: RawSettings)
    ensures NormalizeSettings(ToRaw(NormalizeSettings(input))) == NormalizeSettings(input)
  {
    NormalizeSettingsIsNormal(input);
    NormalizeNormal(NormalizeSettings(input));
  }

  // ---------------------------------------------------------------------------
  // setSettings
  // ---------------------------------------------------------------------------

  /** A field of a patch object: not there, there but `undefined`, or a value. */
  datatype Slot<T> = Absent | Undefined | Present(value: T)

  datatype Patch = Patch(enabled: Slot<bool>, delaySeconds: Slot<int>, smartPause: Slot<bool>, keywords: Slot<seq<string>>)

  function MergeBool(current: bool, patch: Slot<bool>): Option<bool> {
    match patch
    case Absent => Some(current)
    case Undefined => None
    case Present(v) => Some(v)
  }

  /**
   * `{ ...current, ...patch }`: a field the patch has overrides the current
   * one (an explicit `undefined` included); a field it lacks keeps the
   * current value.
   */
  function Merge(current: PauseSettings, patch: Patch): (r: RawSettings)
    ensures r.SettingsObject?
    ensures patch.enabled.Absent? ==> r.enabled == Some(current.enabled)
    ensures patch.enabled.Present? ==> r.enabled == Some(patch.enabled.value)
    ensures patch.smartPause.Absent? ==> r.smartPause == Some(current.smartPause)
    ensures patch.smartPause.Present? ==> r.smartPause == Some(patch.smartPause.value)
    ensures patch.delaySeconds.Absent? ==> r.delaySeconds == DelayNumber(current.delaySeconds)
    ensures patch.delaySeconds.Present? ==> r.delaySeconds == DelayNumber(patch.delaySeconds.value)
    ensures patch.keywords.Absent? ==> r.keywords == KeywordsArray(current.keywords)
    ensures patch.keywords.Present? ==> r.keywords == KeywordsArray(patch.keywords.value)
  {
    SettingsObject(
      MergeBool(current.enabled, patch.enabled),
      match patch.delaySeconds
        case Absent => DelayNumber(current.delaySeconds)
        case Undefined => DelayMissing
        case Present(n) => DelayNumber(n),
      MergeBool(current.smartPause, patch.smartPause),
      match patch.keywords
        case Absent => KeywordsArray(current.keywords)
        case Undefined => KeywordsNotArray
        case Present(ks) => KeywordsArray(ks))
  }

  /** The record `setSettings` stores and returns, given the current (normalised) settings. */
  function SetSettings(current: PauseSettings, patch: Patch): (r: PauseSettings)
    ensures IsNormal(r)
  {
    NormalizeSettingsIsNormal(Merge(current, patch));
    NormalizeSettings(Merge(current, patch))
  }

  /** An empty patch leaves normal settings as they are. */
  lemma SetSettingsEmptyPatch(current: PauseSettings)
    requires IsNormal(current)
    ensures SetSettings(current, Patch(Absent, Absent, Absent, Absent)) == current
  {
    assert Merge(current, Patch(Absent, Absent, Absent, Absent)) == ToRaw(current);
    NormalizeNormal(current);
  }

  /** A patched in-range delay is stored as given, and the fields the patch lacks stay as they were. */
  lemma SetSettingsDelay(current: PauseSettings, seconds: int)
    requires IsNormal(current)
    requires MIN_DELAY_SECONDS <= seconds <= MAX_DELAY_SECONDS
    ensures SetSettings(current, Patch(Absent, Present(seconds), Absent, Absent)) == current.(delaySeconds := seconds)
  {
    assert Merge(current, Patch(Absent, Present(seconds), Absent, Absent)) == ToRaw(current.(delaySeconds := seconds));
    NormalizeNormal(current.(delaySeconds := seconds));
  }
}
