/**
 * The delay decision: a base delay from the settings, raised by fixed
 * amounts for many recipients, an attachment and a sensitive keyword, and
 * clamped to the allowed range.
 */
module SmartPause {
  import opened JsText
  import opened Settings
  import CC = ComposeContext

  /** The three rules, in the order they are checked. */
  datatype Reason = ManyRecipients | Attachment | SensitiveKeyword

  datatype PauseDecision = PauseDecision(delaySeconds: int, reasons: seq<Reason>)

  /** The reason strings shown to the user. */
  function ReasonText(r: Reason): string {
    match r
    case ManyRecipients => "multiple recipients"
    case Attachment => "attachment detected"
    case SensitiveKeyword => "sensitive keyword"
  }

  /** The number of recipients from which the recipients rule applies. */
  const MANY_RECIPIENTS: nat := 3

  /** `clampDelay` on whole seconds (`Math.round` is the identity there). */
  function ClampDelay(seconds: int): (r: int)
    ensures MIN_DELAY_SECONDS <= r <= MAX_DELAY_SECONDS
    ensures MIN_DELAY_SECONDS <= seconds <= MAX_DELAY_SECONDS ==> r == seconds
    ensures seconds < MIN_DELAY_SECONDS ==> r == MIN_DELAY_SECONDS
    ensures seconds > MAX_DELAY_SECONDS ==> r == MAX_DELAY_SECONDS
  {
    if seconds < MIN_DELAY_SECONDS then MIN_DELAY_SECONDS
    else if seconds > MAX_DELAY_SECONDS then MAX_DELAY_SECONDS
    else seconds
  }

  lemma ClampMonotone(a: int, b: int)
    requires a <= b
    ensures ClampDelay(a) <= ClampDelay(b)
  {
  }

  /** The lower-cased text that keywords are looked for in: subject, one space, plain body text. */
  function Haystack(ctx: CC.ComposeContext): string {
    Lower(ctx.subject + " " + ctx.bodyText)
  }

  /** `keywords.some(...)`: some non-empty keyword occurs, ignoring case, in the haystack. */
  predicate AnyKeywordIn(haystack: string, keywords: seq<string>) {
    |keywords| > 0 &&
    ((|keywords[0]| > 0 && Includes(haystack, Lower(keywords[0]))) || AnyKeywordIn(haystack, keywords[1..]))
  }

  /** Some non-empty keyword occurs, ignoring case, in the subject or the body text. */
  predicate KeywordMatches(ctx: CC.ComposeContext, keywords: seq<string>) {
    AnyKeywordIn(Haystack(ctx), keywords)
  }

  /** The search over the keywords finds exactly the keywords that are non-empty and occur. */
  lemma {:induction false} AnyKeywordInExists(haystack: string, keywords: seq<string>)
    ensures AnyKeywordIn(haystack, keywords) <==>
      exists i :: 0 <= i < |keywords| && |keywords[i]| > 0 && Includes(haystack, Lower(keywords[i]))
  {
    if |keywords| > 0 {
      AnyKeywordInExists(haystack, keywords[1..]);
      if AnyKeywordIn(haystack, keywords[1..]) {
        var i :| 0 <= i < |keywords[1..]| && |keywords[1..][i]| > 0 && Includes(haystack, Lower(keywords[1..][i]));
        assert keywords[i + 1] == keywords[1..][i];
      }
      if exists i :: 0 <= i < |keywords| && |keywords[i]| > 0 && Includes(haystack, Lower(keywords[i])) {
        var i :| 0 <= i < |keywords| && |keywords[i]| > 0 && Includes(haystack, Lower(keywords[i]));
        if i > 0 {
          assert keywords[1..][i - 1] == keywords[i];
        }
      }
    }
  }

  /** A non-empty keyword that starts the subject, in any case, matches. */
  lemma SubjectPrefixMatches(ctx: CC.ComposeContext, keywords: seq<string>, i: nat)
    requires i < |keywords| && |keywords[i]| > 0
    requires Lower(keywords[i]) <= Lower(ctx.subject)
    ensures KeywordMatches(ctx, keywords)
  {
    var h := ctx.subject + " " + ctx.bodyText;
    var k := Lower(keywords[i]);
    assert forall j :: 0 <= j < |ctx.subject| ==> h[j] == ctx.subject[j];
    assert Haystack(ctx)[0..|k|] == k;
    IncludesAt(Haystack(ctx), k, 0);
    AnyKeywordInExists(Haystack(ctx), keywords);
  }

  /** Empty keywords never match: adding one changes nothing. */
  lemma EmptyKeywordNeverMatches(ctx: CC.ComposeContext, keywords: seq<string>)
    ensures KeywordMatches(ctx, keywords + [""]) == KeywordMatches(ctx, keywords)
  {
    var ks := keywords + [""];
    AnyKeywordInExists(Haystack(ctx), ks);
    AnyKeywordInExists(Haystack(ctx), keywords);
    if KeywordMatches(ctx, ks) {
      var i :| 0 <= i < |ks| && |ks[i]| > 0 && Includes(Haystack(ctx), Lower(ks[i]));
      assert i < |keywords| && ks[i] == keywords[i];
    }
    if KeywordMatches(ctx, keywords) {
      var i :| 0 <= i < |keywords| && |keywords[i]| > 0 && Includes(Haystack(ctx), Lower(keywords[i]));
      assert ks[i] == keywords[i];
    }
  }

  /** How much a reason adds to the delay. */
  function ReasonWeight(r: Reason): int {
    match r
    case ManyRecipients => 3
    case Attachment => 4
    case SensitiveKeyword => 4
  }

  function TotalWeight(reasons: seq<Reason>): int {
    if reasons == [] then 0 else TotalWeight(reasons[..|reasons| - 1]) + ReasonWeight(reasons[|reasons| - 1])
  }

  /** The position of a reason in the fixed order recipients, attachment, keyword. */
  function ReasonRank(r: Reason): int {
    match r
    case ManyRecipients => 0
    case Attachment => 1
    case SensitiveKeyword => 2
  }

  /** The reasons pushed for the rules that fire, in the order the rules are checked. */
  function Reasons(manyRecipients: bool, attachment: bool, keyword: bool): seq<Reason> {
    (if manyRecipients then [ManyRecipients] else [])
      + (if attachment then [Attachment] else [])
      + (if keyword then [SensitiveKeyword] else [])
  }

  /** A reason is present exactly when its rule fires, and the reasons keep the fixed order. */
  lemma ReasonsOrder(manyRecipients: bool, attachment: bool, keyword: bool)
    ensures var r := Reasons(manyRecipients, attachment, keyword);
      && (ManyRecipients in r <==> manyRecipients)
      && (Attachment in r <==> attachment)
      && (SensitiveKeyword in r <==> keyword)
      && (forall i, j :: 0 <= i < j < |r| ==> ReasonRank(r[i]) < ReasonRank(r[j]))
      && (forall i, j :: 0 <= i < j < |r| ==> r[i] != r[j])
  {
    var r := Reasons(manyRecipients, attachment, keyword);
    var m, a, k := [ManyRecipients], [Attachment], [SensitiveKeyword];
    if manyRecipients && attachment && keyword {
      assert r == m + a + k;
    } else if manyRecipients && attachment {
      assert r == m + a;
    } else if manyRecipients && keyword {
      assert r == m + k;
    } else if attachment && keyword {
      assert r == a + k;
    }
  }

  /** The weights of the reasons add up to those of the rules that fire. */
  lemma ReasonsWeight(manyRecipients: bool, attachment: bool, keyword: bool)
    ensures TotalWeight(Reasons(manyRecipients, attachment, keyword))
      == (if manyRecipients then 3 else 0) + (if attachment then 4 else 0) + (if keyword then 4 else 0)
  {
    var r1 := if manyRecipients then [ManyRecipients] else [];
    var r2 := r1 + (if attachment then [Attachment] else []);
    var r3 := r2 + (if keyword then [SensitiveKeyword] else []);
    assert r2 == r1 || r2[..|r2| - 1] == r1;
    assert r3 == r2 || r3[..|r3| - 1] == r2;
    assert TotalWeight(r1) == (if manyRecipients then 3 else 0);
    assert TotalWeight(r2) == TotalWeight(r1) + (if attachment then 4 else 0);
    assert TotalWeight(r3) == TotalWeight(r2) + (if keyword then 4 else 0);
  }

  /** Which of the three rules fire for a compose. */
  datatype Triggers = Triggers(manyRecipients: bool, attachment: bool, keyword: bool)

  /** The rules applied to a compose: three or more recipients, an attachment, a matching keyword. */
  function TriggersOf(ctx: CC.ComposeContext, keywords: seq<string>): Triggers {
    Triggers(ctx.toCount >= MANY_RECIPIENTS, ctx.hasAttachment, KeywordMatches(ctx, keywords))
  }

  /**
   * The decision `computePauseDecision` makes once it knows which rules
   * fire. With smart pause off: the clamped base delay and no reasons. With
   * it on: a reason for each rule that fires, and the clamped base delay
   * plus the weights of those reasons.
   */
  function DecisionFor(settings: PauseSettings, t: Triggers): (d: PauseDecision)
    ensures MIN_DELAY_SECONDS <= d.delaySeconds <= MAX_DELAY_SECONDS
    ensures !settings.smartPause ==> d == PauseDecision(ClampDelay(settings.delaySeconds), [])
    ensures d.delaySeconds == ClampDelay(settings.delaySeconds + TotalWeight(d.reasons))
  {
    if !settings.smartPause then PauseDecision(ClampDelay(settings.delaySeconds), [])
    else
      var delay := settings.delaySeconds
        + (if t.manyRecipients then 3 else 0)
        + (if t.attachment then 4 else 0)
        + (if t.keyword then 4 else 0);
      ReasonsWeight(t.manyRecipients, t.attachment, t.keyword);
      PauseDecision(ClampDelay(delay), Reasons(t.manyRecipients, t.attachment, t.keyword))
  }

  function Decision(ctx: CC.ComposeContext, settings: PauseSettings): PauseDecision {
    DecisionFor(settings, TriggersOf(ctx, settings.keywords))
  }

  /** `computePauseDecision`: raise the delay and push a reason rule by rule, then clamp. */
  method ComputePauseDecision(ctx: CC.ComposeContext, settings: PauseSettings) returns (d: PauseDecision)
    ensures d == Decision(ctx, settings)
  {
    var delay := settings.delaySeconds;
    var reasons: seq<Reason> := [];
    if !settings.smartPause {
      return PauseDecision(ClampDelay(delay), reasons);
    }
    if ctx.toCount >= MANY_RECIPIENTS {
      delay := delay + 3;
      reasons := reasons + [ManyRecipients];
    }
    if ctx.hasAttachment {
      delay := delay + 4;
      reasons := reasons + [Attachment];
    }
    var matchesKeyword := KeywordMatches(ctx, settings.keywords);
    if matchesKeyword {
      delay := delay + 4;
      reasons := reasons + [SensitiveKeyword];
    }
    d := PauseDecision(ClampDelay(delay), reasons);
  }

  /**
   * Each rule contributes its reason exactly when smart pause is on and the
   * rule fires, and the reasons come in the order the rules are checked, so
   * none appears twice.
   */
  lemma DecisionReasons(settings: PauseSettings, t: Triggers)
    ensures var d := DecisionFor(settings, t);
      && (ManyRecipients in d.reasons <==> settings.smartPause && t.manyRecipients)
      && (Attachment in d.reasons <==> settings.smartPause && t.attachment)
      && (SensitiveKeyword in d.reasons <==> settings.smartPause && t.keyword)
      && (forall i, j :: 0 <= i < j < |d.reasons| ==> ReasonRank(d.reasons[i]) < ReasonRank(d.reasons[j]))
      && (forall i, j :: 0 <= i < j < |d.reasons| ==> d.reasons[i] != d.reasons[j])
  {
    ReasonsOrder(t.manyRecipients, t.attachment, t.keyword);
  }

  /** `computeDelay`: the delay of the decision. */
  function ComputeDelay(ctx: CC.ComposeContext, settings: PauseSettings): (r: int)
    ensures MIN_DELAY_SECONDS <= r <= MAX_DELAY_SECONDS
  {
    Decision(ctx, settings).delaySeconds
  }

  /** The rules only ever add: the delay is never below the clamped base delay. */
  lemma DelayAtLeastBase(settings: PauseSettings, t: Triggers)
    ensures DecisionFor(settings, t).delaySeconds >= ClampDelay(settings.delaySeconds)
  {
    var d := DecisionFor(settings, t);
    WeightNonNegative(d.reasons);
    ClampMonotone(settings.delaySeconds, settings.delaySeconds + TotalWeight(d.reasons));
  }

  lemma {:induction false} WeightNonNegative(reasons: seq<Reason>)
    ensures TotalWeight(reasons) >= 0
  {
    if reasons != [] {
      WeightNonNegative(reasons[..|reasons| - 1]);
    }
  }

  /** Firing every rule another compose fires (and perhaps more) never gives a shorter delay. */
  lemma DelayMonotone(settings: PauseSettings, a: Triggers, b: Triggers)
    requires a.manyRecipients ==> b.manyRecipients
    requires a.attachment ==> b.attachment
    requires a.keyword ==> b.keyword
    ensures DecisionFor(settings, a).delaySeconds <= DecisionFor(settings, b).delaySeconds
  {
    ReasonsWeight(a.manyRecipients, a.attachment, a.keyword);
    ReasonsWeight(b.manyRecipients, b.attachment, b.keyword);
    if settings.smartPause {
      var wa := TotalWeight(Reasons(a.manyRecipients, a.attachment, a.keyword));
      var wb := TotalWeight(Reasons(b.manyRecipients, b.attachment, b.keyword));
      ClampMonotone(settings.delaySeconds + wa, settings.delaySeconds + wb);
    }
  }

  /** A larger base delay never gives a shorter delay. */
  lemma DelayMonotoneInBase(settings: PauseSettings, t: Triggers, base: int)
    requires settings.delaySeconds <= base
    ensures DecisionFor(settings, t).delaySeconds <= DecisionFor(settings.(delaySeconds := base), t).delaySeconds
  {
    var d := DecisionFor(settings, t);
    var e := DecisionFor(settings.(delaySeconds := base), t);
    assert d.reasons == e.reasons;
    ClampMonotone(settings.delaySeconds + TotalWeight(d.reasons), base + TotalWeight(d.reasons));
  }
}
