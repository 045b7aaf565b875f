/**
 * The focus trap of the pause dialog: Tab and Shift+Tab cycle through the
 * focusable elements of the dialog, Escape asks the dialog to close, and
 * deactivation gives the focus back once.
 *
 * Elements are identified by numbers; the list of focusable elements is
 * read afresh on every key press, so it is a parameter of the key handler.
 */
module FocusTrap {
  import opened Wrappers

  type Element = nat

  /** `current ? focusable.indexOf(current) : -1`. */
  function IndexOf(xs: seq<Element>, current: Option<Element>): (i: int)
    ensures -1 <= i < |xs|
    ensures i >= 0 ==> current.Some? && xs[i] == current.value
    ensures i >= 0 ==> forall j :: 0 <= j < i ==> xs[j] != current.value
    ensures i == -1 <==> current.None? || current.value !in xs
  {
    if current.None? || xs == [] then -1
    else if xs[0] == current.value then 0
    else
      var r := IndexOf(xs[1..], current);
      assert current.value in xs[1..] ==> current.value in xs;
      if r == -1 then -1 else r + 1
  }

  /**
   * The index Tab (or Shift+Tab when `movingBack`) moves to from
   * `currentIndex`, -1 standing for an element outside the list.
   */
  function NextIndex(currentIndex: int, n: nat, movingBack: bool): (r: nat)
    requires n > 0
    requires -1 <= currentIndex < n
    ensures r < n
  {
    if movingBack then (if currentIndex <= 0 then n - 1 else currentIndex - 1)
    else if currentIndex == -1 || currentIndex >= n - 1 then 0
    else currentIndex + 1
  }

  /** Tab moves one place forward in the cyclic order, an outside element counting as just before the first. */
  lemma NextIndexForward(currentIndex: int, n: nat)
    requires n > 0
    requires -1 <= currentIndex < n
    ensures NextIndex(currentIndex, n, false) == (currentIndex + 1) % n
  {
  }

  /** Shift+Tab moves one place back in the cyclic order; from outside the list it goes to the last element. */
  lemma NextIndexBackward(currentIndex: int, n: nat)
    requires n > 0
    requires -1 <= currentIndex < n
    ensures currentIndex == -1 ==> NextIndex(currentIndex, n, true) == n - 1
    ensures currentIndex >= 0 ==> NextIndex(currentIndex, n, true) == (currentIndex - 1 + n) % n
  {
  }

  /** Tab then Shift+Tab (and Shift+Tab then Tab) from an element of the list come back to it. */
  lemma NextIndexRoundTrip(i: nat, n: nat)
    requires i < n
    ensures NextIndex(NextIndex(i, n, false), n, true) == i
    ensures NextIndex(NextIndex(i, n, true), n, false) == i
  {
  }

  /** What one key press does. */
  datatype KeyOutcome =
    | Inactive       // the trap was deactivated: nothing
    | Escaped        // Escape: default prevented, the close callback called
    | OtherKey       // neither Escape nor Tab: left alone
    | NoFocusable    // Tab with nothing focusable: default prevented, no focus change
    | Moved(index: nat)  // Tab: default prevented, focus moved to this index

  /** `onKeyDown`, as a function of the trap's flag, the key and the focus. */
  function KeyStep(active: bool, key: string, shiftKey: bool, focusable: seq<Element>, current: Option<Element>): (r: KeyOutcome)
    ensures r.Moved? ==> r.index < |focusable|
    ensures !active ==> r.Inactive?
    ensures r.Escaped? <==> active && key == "Escape"
    ensures r.NoFocusable? <==> active && key == "Tab" && focusable == []
    ensures r.Moved? <==> active && key == "Tab" && focusable != []
  {
    if !active then Inactive
    else if key == "Escape" then Escaped
    else if key != "Tab" then OtherKey
    else if |focusable| == 0 then NoFocusable
    else Moved(NextIndex(IndexOf(focusable, current), |focusable|, shiftKey))
  }

  /** Whether the key's browser default is prevented. */
  predicate PreventsDefault(r: KeyOutcome) {
    r.Escaped? || r.NoFocusable? || r.Moved?
  }

  /** The elements of a `querySelectorAll` result are pairwise different. */
  ghost predicate Distinct(xs: seq<Element>) {
    forall i, j :: 0 <= i < j < |xs| ==> xs[i] != xs[j]
  }

  /** In a list without repeats, the index of an element is its position. */
  lemma IndexOfDistinct(xs: seq<Element>, i: nat)
    requires Distinct(xs) && i < |xs|
    ensures IndexOf(xs, Some(xs[i])) == i
  {
    var k := IndexOf(xs, Some(xs[i]));
    assert !(k < i) && !(i < k);
  }

  /** Tab from the last element, or from an element outside the list, wraps to the first. */
  lemma TabWrapsToFirst(focusable: seq<Element>, current: Option<Element>)
    requires focusable != [] && Distinct(focusable)
    requires current.None? || current.value !in focusable || current == Some(focusable[|focusable| - 1])
    ensures KeyStep(true, "Tab", false, focusable, current) == Moved(0)
  {
    if current == Some(focusable[|focusable| - 1]) {
      IndexOfDistinct(focusable, |focusable| - 1);
    }
  }

  /** Shift+Tab from the first element, or from outside the list, wraps to the last. */
  lemma ShiftTabWrapsToLast(focusable: seq<Element>, current: Option<Element>)
    requires focusable != []
    requires current.None? || current.value !in focusable || current == Some(focusable[0])
    ensures KeyStep(true, "Tab", true, focusable, current) == Moved(|focusable| - 1)
  {
  }

  /** Away from the ends, Tab focuses the next element and Shift+Tab the previous one. */
  lemma TabMovesOn(focusable: seq<Element>, i: nat)
    requires Distinct(focusable) && i + 1 < |focusable|
    ensures KeyStep(true, "Tab", false, focusable, Some(focusable[i])) == Moved(i + 1)
    ensures KeyStep(true, "Tab", true, focusable, Some(focusable[i + 1])) == Moved(i)
  {
    IndexOfDistinct(focusable, i);
    IndexOfDistinct(focusable, i + 1);
  }

  /** A trap over one dialog: it starts active with the keydown listener attached. */
  class Trap {
    /** The `active` flag. */
    var active: bool
    /** Whether the keydown listener is attached. */
    var listening: bool
    /** `document.activeElement`: as the last key press found it, or where the trap moved it. */
    var focused: Option<Element>
    /** How many times the close callback has been called. */
    var escapes: nat
    /** How many times deactivation has run its effects. */
    var deactivations: nat
    /** The element that had the focus before the trap was created. */
    const previousActive: Option<Element>

    /** Deactivation has run exactly when the trap is inactive, and then once. */
    ghost predicate Valid()
      reads this
    {
      listening == active && deactivations == (if active then 0 else 1)
    }

    /** `createFocusTrap`: attach the listener and focus the first focusable element, if any. */
    constructor (focusable: seq<Element>, activeElement: Option<Element>)
      ensures Valid() && active && escapes == 0
      ensures previousActive == activeElement
      ensures focused == if focusable != [] then Some(focusable[0]) else activeElement
    {
      active := true;
      listening := true;
      escapes := 0;
      deactivations := 0;
      previousActive := activeElement;
      focused := if focusable != [] then Some(focusable[0]) else activeElement;
    }

    /**
     * The keydown handler, given the focusable elements and
     * `document.activeElement` as they are when the key is pressed (the user
     * or the page may have moved the focus since the trap last did).
     */
    method OnKeyDown(key: string, shiftKey: bool, focusable: seq<Element>, activeElement: Option<Element>)
      returns (outcome: KeyOutcome)
      requires Valid()
      modifies this
      ensures Valid()
      ensures outcome == KeyStep(old(active), key, shiftKey, focusable, activeElement)
      ensures active == old(active) && deactivations == old(deactivations)
      ensures escapes == old(escapes) + (if outcome.Escaped? then 1 else 0)
      ensures focused == if outcome.Moved? then Some(focusable[outcome.index]) else activeElement
    {
      focused := activeElement;
      if !active {
        return Inactive;
      }
      if key == "Escape" {
        escapes := escapes + 1;
        return Escaped;
      }
      if key != "Tab" {
        return OtherKey;
      }
      if |focusable| == 0 {
        return NoFocusable;
      }
      var currentIndex := IndexOf(focusable, focused);
      var nextIndex := NextIndex(currentIndex, |focusable|, shiftKey);
      focused := Some(focusable[nextIndex]);
      outcome := Moved(nextIndex);
    }

    /**
     * `deactivate`: the first call clears the flag, detaches the listener and
     * gives the focus back to the earlier element if it is still in the
     * document; later calls do nothing.
     */
    method Deactivate(previousStillInDocument: bool)
      requires Valid()
      modifies this
      ensures Valid() && !active
      ensures deactivations == 1 && escapes == old(escapes)
      ensures focused == if old(active) && previousActive.Some? && previousStillInDocument then previousActive else old(focused)
    {
      if !active {
        return;
      }
      active := false;
      listening := false;
      deactivations := deactivations + 1;
      if previousActive.Some? && previousStillInDocument {
        focused := previousActive;
      }
    }
  }
}
