/**
 * Send interception in the Outlook web client: a pointerdown, a click or the
 * send shortcut on a compose window's send button is blocked and reported
 * as one send attempt, with attempts on the same compose window less than
 * 120 ms apart reported once.
 *
 * Compose windows are identified by numbers and the clock is a parameter.
 * What the page lookups find (the overlay test, the send button, its bypass
 * attribute, the compose window) is given as a record per event.
 */
module OutlookIntercept {
  import opened Wrappers
  import opened SendTrigger

  type Root = nat

  const DEDUPE_MS: int := 120

  datatype Trigger = Click | Shortcut

  datatype Attempt = Attempt(root: Root, trigger: Trigger, time: int)

  /** `lastAttemptByCompose.get(root) ?? 0`. */
  function LastAttempt(last: map<Root, int>, root: Root): int {
    if root in last then last[root] else 0
  }

  /** Whether an attempt on `root` at `now` is reported. */
  predicate Accepts(last: map<Root, int>, root: Root, now: int) {
    !(now - LastAttempt(last, root) < DEDUPE_MS)
  }

  /** The record after an attempt: an accepted attempt stores `now` for its root, a dropped one changes nothing. */
  function Record(last: map<Root, int>, root: Root, now: int): (r: map<Root, int>)
    ensures Accepts(last, root, now) ==> r == last[root := now]
    ensures !Accepts(last, root, now) ==> r == last
  {
    if Accepts(last, root, now) then last[root := now] else last
  }

  /** An attempt on one compose window neither changes nor depends on another window's record. */
  lemma RootsIndependent(last: map<Root, int>, root: Root, other: Root, now: int)
    requires other != root
    ensures LastAttempt(Record(last, root, now), other) == LastAttempt(last, other)
    ensures forall t :: Accepts(Record(last, root, now), other, t) == Accepts(last, other, t)
  {
  }

  /** A root with no record is accepted from time 120 on. */
  lemma FirstAttemptAccepted(last: map<Root, int>, root: Root, now: int)
    requires root !in last
    ensures Accepts(last, root, now) <==> now >= DEDUPE_MS
  {
  }

  /** After an accepted attempt at `t`, a second one within 120 ms is dropped and one at 120 ms or later is accepted. */
  lemma SecondAttemptWithinWindow(last: map<Root, int>, root: Root, t: int, d: int)
    requires Accepts(last, root, t)
    ensures Accepts(Record(last, root, t), root, t + d) <==> d >= DEDUPE_MS
  {
  }

  /** What the page lookups report for a pointer or click event. */
  datatype PointerEvent = PointerEvent(
    fromOverlay: bool,                 // the target is inside the pause dialog's overlay
    sendButton: Option<Option<string>>, // the send button under the target, with its bypass attribute
    composeRoot: Option<Root>)         // the compose window of that button

  /** What the page lookups report for a keydown event. */
  datatype KeyDownEvent = KeyDownEvent(
    fromOverlay: bool,
    key: KeyEvent,
    composeRoot: Option<Root>,          // the compose window of the target
    sendButton: Option<Option<string>>) // that window's send button, with its bypass attribute

  /** The compose window a pointerdown or click is reported for, if it is intercepted. */
  function PointerTarget(e: PointerEvent): (r: Option<Root>)
    ensures r.Some? ==> !e.fromOverlay && e.sendButton.Some? && !IsBypassSend(e.sendButton.value) && e.composeRoot == r
    ensures !e.fromOverlay && e.sendButton.Some? && !IsBypassSend(e.sendButton.value) && e.composeRoot.Some? ==> r.Some?
  {
    if e.fromOverlay then None
    else if e.sendButton.None? || IsBypassSend(e.sendButton.value) then None
    else e.composeRoot
  }

  /** The compose window a keydown is reported for, if it is intercepted. */
  function KeyTarget(e: KeyDownEvent): (r: Option<Root>)
    ensures r.Some? ==> !e.fromOverlay && IsSendShortcut(e.key) && e.sendButton.Some? && !IsBypassSend(e.sendButton.value) && e.composeRoot == r
    ensures !e.fromOverlay && IsSendShortcut(e.key) && e.sendButton.Some? && !IsBypassSend(e.sendButton.value) && e.composeRoot.Some? ==> r.Some?
  {
    if e.fromOverlay || !IsSendShortcut(e.key) then None
    else if e.composeRoot.None? then None
    else if e.sendButton.None? || IsBypassSend(e.sendButton.value) then None
    else e.composeRoot
  }

  /** The interception started by `startOutlookSendInterception`. */
  class Interceptor {
    /** `lastAttemptByCompose`. */
    var lastAttempt: map<Root, int>
    /** The attempts handed to the callback, oldest first. */
    var reported: seq<Attempt>

    constructor ()
      ensures lastAttempt == map[] && reported == []
    {
      lastAttempt := map[];
      reported := [];
    }

    /** `dispatchAttempt`. */
    method DispatchAttempt(root: Root, trigger: Trigger, now: int)
      modifies this
      ensures lastAttempt == Record(old(lastAttempt), root, now)
      ensures reported == old(reported) + (if Accepts(old(lastAttempt), root, now) then [Attempt(root, trigger, now)] else [])
    {
      var previous := if root in lastAttempt then lastAttempt[root] else 0;
      if now - previous < DEDUPE_MS {
        return;
      }
      lastAttempt := lastAttempt[root := now];
      reported := reported + [Attempt(root, trigger, now)];
    }

    /** `onPointerDown` and `onClick`; the result says whether the event was blocked. */
    method OnPointer(e: PointerEvent, now: int) returns (blocked: bool)
      modifies this
      ensures blocked <==> PointerTarget(e).Some?
      ensures !blocked ==> lastAttempt == old(lastAttempt) && reported == old(reported)
      ensures blocked ==> lastAttempt == Record(old(lastAttempt), PointerTarget(e).value, now)
      ensures blocked ==>
        reported == old(reported) + (if Accepts(old(lastAttempt), PointerTarget(e).value, now) then [Attempt(PointerTarget(e).value, Click, now)] else [])
    {
      var target := PointerTarget(e);
      if target.None? {
        return false;
      }
      DispatchAttempt(target.value, Click, now);
      return true;
    }

    /** `onKeyDown`; the result says whether the event was blocked. */
    method OnKeyDown(e: KeyDownEvent, now: int) returns (blocked: bool)
      modifies this
      ensures blocked <==> KeyTarget(e).Some?
      ensures !blocked ==> lastAttempt == old(lastAttempt) && reported == old(reported)
      ensures blocked ==> lastAttempt == Record(old(lastAttempt), KeyTarget(e).value, now)
      ensures blocked ==>
        reported == old(reported) + (if Accepts(old(lastAttempt), KeyTarget(e).value, now) then [Attempt(KeyTarget(e).value, Shortcut, now)] else [])
    {
      var target := KeyTarget(e);
      if target.None? {
        return false;
      }
      DispatchAttempt(target.value, Shortcut, now);
      return true;
    }
  }

  /**
   * A pointerdown followed within 120 ms by the click of the same press, both
   * on `root`, is reported at most once, and exactly once when the window has
   * no earlier record and the clock reads at least 120.
   */
  lemma PressReportedOnce(last: map<Root, int>, root: Root, t: int, d: int)
    requires 0 <= d < DEDUPE_MS
    ensures !(Accepts(last, root, t) && Accepts(Record(last, root, t), root, t + d))
    ensures root !in last && t >= DEDUPE_MS ==>
      Accepts(last, root, t) && !Accepts(Record(last, root, t), root, t + d)
  {
    if Accepts(last, root, t) {
      SecondAttemptWithinWindow(last, root, t, d);
    }
  }
}
