/**
 * The pause dialog: its display helpers, the countdown that sends when it
 * runs out, and the rule that a dialog settles once, with the first result
 * winning. At most one dialog is active; opening a new one cancels it.
 *
 * Timers become method calls (`Tick` is one interval callback), the
 * analysis promise becomes `AnalysisArrived`, and the DOM the dialog builds
 * is left out.
 */
module Modal {
  import opened Wrappers
  import opened JsText
  import opened Issues

  // ---------------------------------------------------------------------------
  // Display helpers
  // ---------------------------------------------------------------------------

  /** `labelForCount`: "1 issue", otherwise the decimal count followed by " issues". */
  function LabelForCount(count: nat): (r: string)
    ensures count == 1 ==> r == "1 issue"
    ensures count != 1 ==> |r| > 7 && r[|r| - 7..] == " issues"
    ensures count != 1 ==> var digits := r[..|r| - 7];
      (forall i :: 0 <= i < |digits| ==> IsAsciiDigit(digits[i])) && DecimalValue(digits) == count
  {
    if count == 1 then "1 issue"
    else
      var digits := NatToString(count);
      DecimalRoundTrip(count);
      assert (digits + " issues")[..|digits|] == digits;
      digits + " issues"
  }

  /** `issueLine`: the message, after "[Subject] " or "[Body] " when the issue has a location. */
  function IssueLine(issue: Issue): (r: string)
    ensures |r| >= |issue.message| && r[|r| - |issue.message|..] == issue.message
    ensures issue.location.None? ==> r == issue.message
    ensures issue.location == Some(Subject) ==> r[..|r| - |issue.message|] == "[Subject] "
    ensures issue.location == Some(Body) ==> r[..|r| - |issue.message|] == "[Body] "
  {
    var prefix := match issue.location
      case None => ""
      case Some(Subject) => "[Subject] "
      case Some(Body) => "[Body] ";
    assert (prefix + issue.message)[..|prefix|] == prefix;
    prefix + issue.message
  }

  predicate HasSeverity(issues: seq<Issue>, s: Severity) {
    exists i :: 0 <= i < |issues| && issues[i].severity == s
  }

  /** `worstSeverity`: none for no issues, otherwise the highest severity present. */
  function WorstSeverity(issues: seq<Issue>): (r: Option<Severity>)
    ensures r.None? <==> issues == []
    ensures r.Some? ==> HasSeverity(issues, r.value)
    ensures r.Some? ==> forall i :: 0 <= i < |issues| ==> Rank(issues[i].severity) <= Rank(r.value)
  {
    if HasSeverity(issues, High) then Some(High)
    else if HasSeverity(issues, Medium) then Some(Medium)
    else if |issues| > 0 then
      assert issues[0].severity == Low;
      Some(Low)
    else None
  }

  /** Adding issues never lowers the worst severity. */
  lemma WorstSeverityMonotone(a: seq<Issue>, b: seq<Issue>)
    requires a != []
    ensures Rank(WorstSeverity(a).value) <= Rank(WorstSeverity(a + b).value)
  {
    var w := WorstSeverity(a).value;
    var i :| 0 <= i < |a| && a[i].severity == w;
    assert (a + b)[i] == a[i];
  }

  datatype Urgency = UrgencyLow | UrgencyMedium | UrgencyHigh

  /** The countdown's urgency: high for 3 seconds or less, medium up to 6, low above. */
  function UrgencyOf(remaining: int): (u: Urgency)
    ensures u == UrgencyHigh <==> remaining <= 3
    ensures u == UrgencyLow <==> remaining > 6
  {
    if remaining <= 3 then UrgencyHigh else if remaining <= 6 then UrgencyMedium else UrgencyLow
  }

  function UrgencyRank(u: Urgency): nat {
    match u
    case UrgencyLow => 0
    case UrgencyMedium => 1
    case UrgencyHigh => 2
  }

  /** Urgency only rises as the countdown runs down. */
  lemma UrgencyRises(later: int, earlier: int)
    requires later <= earlier
    ensures UrgencyRank(UrgencyOf(earlier)) <= UrgencyRank(UrgencyOf(later))
  {
  }

  /** The first countdown value, `Math.max(1, Math.round(delaySeconds))` for whole seconds. */
  function StartRemaining(delaySeconds: int): (r: int)
    ensures r >= 1
    ensures delaySeconds >= 1 ==> r == delaySeconds
    ensures delaySeconds < 1 ==> r == 1
  {
    if delaySeconds > 1 then delaySeconds else 1
  }

  // ---------------------------------------------------------------------------
  // The dialog state
  // ---------------------------------------------------------------------------

  datatype PauseResult = Confirm | Cancel

  /** What the dialog shows below the title. */
  datatype Section = Skeleton | AnalysisShown | AnalysisFailed

  /** The module-level `activeModal` slot. */
  class ModalHost {
    var activeModal: PauseModal?

    /** The active dialog belongs to this host and has not settled. */
    ghost predicate Valid()
      reads this, activeModal
    {
      activeModal != null ==> activeModal.host == this && activeModal.Valid() && !activeModal.settled
    }

    constructor ()
      ensures activeModal == null && Valid()
    {
      activeModal := null;
    }

    /**
     * `openPauseModal`: a delay of 0 or less confirms at once and leaves
     * everything as it was; otherwise the active dialog, if any, is
     * cancelled and a new one starts its countdown and becomes the active one.
     */
    method OpenPauseModal(delaySeconds: int) returns (immediate: Option<PauseResult>, m: PauseModal?)
      requires Valid()
      modifies this, activeModal
      ensures Valid()
      ensures delaySeconds <= 0 ==> immediate == Some(Confirm) && m == null && activeModal == old(activeModal)
      ensures delaySeconds <= 0 && old(activeModal) != null ==> unchanged(old(activeModal))
      ensures delaySeconds > 0 ==> immediate.None? && m != null && fresh(m) && activeModal == m
      ensures delaySeconds > 0 ==> m.remaining == StartRemaining(delaySeconds) && m.result.None? && m.section == Skeleton
      ensures delaySeconds > 0 && old(activeModal) != null ==> old(activeModal).settled && old(activeModal).result == Some(Cancel)
      ensures delaySeconds > 0 && old(activeModal) != null ==>
        old(activeModal).remaining == old(activeModal.remaining) && old(activeModal).section == old(activeModal.section)
    {
      if delaySeconds <= 0 {
        return Some(Confirm), null;
      }
      if activeModal != null {
        activeModal.Settle(Cancel);
      }
      m := new PauseModal(this, delaySeconds);
      activeModal := m;
      immediate := None;
    }
  }

  /** One dialog: the `remaining` and `settled` locals of `openPauseModal` and what it shows. */
  class PauseModal {
    var remaining: int
    var settled: bool
    /** The value the dialog's promise resolved to, once settled. */
    var result: Option<PauseResult>
    var section: Section
    /** Whether the one-second interval is still scheduled. */
    var timerRunning: bool
    /** Whether the focus trap is still active. */
    var trapActive: bool
    const host: ModalHost

    /** The timer and the trap run exactly until the result is fixed. */
    ghost predicate Consistent()
      reads this
    {
      && (settled <==> result.Some?)
      && timerRunning == !settled
      && trapActive == !settled
    }

    /** ... and an open dialog has at least a second left. */
    ghost predicate Valid()
      reads this
    {
      Consistent() && (!settled ==> remaining >= 1)
    }

    constructor (host: ModalHost, delaySeconds: int)
      ensures Valid() && this.host == host
      ensures remaining == StartRemaining(delaySeconds) && !settled && section == Skeleton
    {
      this.host := host;
      remaining := StartRemaining(delaySeconds);
      settled := false;
      result := None;
      section := Skeleton;
      timerRunning := true;
      trapActive := true;
    }

    /**
     * `settle`: the first call stops the timer and the trap, clears the
     * host's slot if it still points at this dialog, and resolves; any later
     * call does nothing.
     */
    method Settle(r: PauseResult)
      requires Consistent()
      modifies this, host
      ensures Valid() && settled
      ensures remaining == old(remaining) && section == old(section)
      ensures old(settled) ==> result == old(result) && host.activeModal == old(host.activeModal)
      ensures !old(settled) ==> result == Some(r)
      ensures !old(settled) ==> host.activeModal == if old(host.activeModal) == this then null else old(host.activeModal)
    {
      if settled {
        return;
      }
      settled := true;
      timerRunning := false;
      trapActive := false;
      if host.activeModal == this {
        host.activeModal := null;
      }
      result := Some(r);
    }

    /** One interval callback: count down, and confirm on reaching 0. Nothing once the timer is cleared. */
    method Tick()
      requires Valid()
      modifies this, host
      ensures Valid() && section == old(section)
      ensures old(settled) ==> remaining == old(remaining) && result == old(result) && host.activeModal == old(host.activeModal)
      ensures !old(settled) ==> remaining == old(remaining) - 1
      ensures !old(settled) ==> (settled <==> remaining <= 0)
      ensures !old(settled) && remaining <= 0 ==> result == Some(Confirm)
      ensures !old(settled) && remaining <= 0 ==>
        host.activeModal == if old(host.activeModal) == this then null else old(host.activeModal)
      ensures !old(settled) && remaining > 0 ==> host.activeModal == old(host.activeModal)
    {
      if !timerRunning {
        return;
      }
      remaining := remaining - 1;
      if remaining <= 0 {
        Settle(Confirm);
      }
    }

    /** The analysis promise resolved (`ok`) or failed: shown only while the dialog is open. */
    method AnalysisArrived(ok: bool)
      requires Valid()
      modifies this
      ensures Valid()
      ensures remaining == old(remaining) && settled == old(settled) && result == old(result)
      ensures section == if old(settled) then old(section) else if ok then AnalysisShown else AnalysisFailed
    {
      if !settled {
        section := if ok then AnalysisShown else AnalysisFailed;
      }
    }

    /** A keydown inside the dialog: Enter outside a text area sends. */
    method KeyDown(key: string, inTextArea: bool)
      requires Valid()
      modifies this, host
      ensures Valid()
      ensures remaining == old(remaining) && section == old(section)
      ensures !(key == "Enter" && !inTextArea) ==>
        result == old(result) && settled == old(settled) && host.activeModal == old(host.activeModal)
      ensures key == "Enter" && !inTextArea ==> settled && result == if old(settled) then old(result) else Some(Confirm)
      ensures key == "Enter" && !inTextArea ==>
        host.activeModal == if !old(settled) && old(host.activeModal) == this then null else old(host.activeModal)
    {
      if key == "Enter" && !inTextArea {
        Settle(Confirm);
      }
    }
  }

  /**
   * From a fresh countdown started at `n`, `n` ticks confirm and fewer do not:
   * the dialog confirms after exactly `StartRemaining(delay)` seconds unless
   * something settles it first.
   */
  method RunCountdown(m: PauseModal, ticks: nat) returns (confirmedAt: Option<nat>)
    requires m.Valid() && !m.settled
    modifies m, m.host
    ensures m.Valid()
    ensures ticks >= old(m.remaining) ==> confirmedAt == Some(old(m.remaining)) && m.result == Some(Confirm)
    ensures ticks < old(m.remaining) ==> confirmedAt.None? && !m.settled && m.remaining == old(m.remaining) - ticks
  {
    var k := 0;
    confirmedAt := None;
    while k < ticks
      invariant 0 <= k <= ticks && m.Valid()
      invariant k <= old(m.remaining)
      invariant confirmedAt.None? ==> !m.settled && m.remaining == old(m.remaining) - k
      invariant confirmedAt.Some? ==> k == old(m.remaining) && confirmedAt == Some(k) && m.result == Some(Confirm)
    {
      if confirmedAt.Some? {
        break;
      }
      m.Tick();
      k := k + 1;
      if m.settled {
        confirmedAt := Some(k);
      }
    }
  }
}
