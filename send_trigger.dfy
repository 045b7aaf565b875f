/**
 * The keyboard shortcut that sends a message, and the marker attribute that
 * lets a send-button click through without a pause.
 */
module SendTrigger {
  import opened Wrappers

  /** The parts of a `KeyboardEvent` that the shortcut test reads. */
  datatype KeyEvent = KeyEvent(key: string, ctrlKey: bool, metaKey: bool, altKey: bool, shiftKey: bool)

  /** The attribute a re-dispatched send carries. */
  const SEND_BYPASS_ATTR: string := "data-micro-pause-bypass"

  /** `isSendShortcut`: Enter with Ctrl or Meta held, and neither Alt nor Shift. */
  predicate IsSendShortcut(e: KeyEvent) {
    if e.key != "Enter" then false
    else (e.ctrlKey || e.metaKey) && !e.altKey && !e.shiftKey
  }

  /** No key other than Enter is a send shortcut, whatever modifiers are held. */
  lemma OnlyEnterSends(e: KeyEvent)
    requires e.key != "Enter"
    ensures !IsSendShortcut(e)
  {
  }

  /** Plain Enter (no Ctrl, no Meta) is typing, not sending. */
  lemma EnterNeedsCtrlOrMeta(e: KeyEvent)
    requires !e.ctrlKey && !e.metaKey
    ensures !IsSendShortcut(e)
  {
  }

  /** Alt or Shift held turns the combination off. */
  lemma AltOrShiftCancels(e: KeyEvent)
    requires e.altKey || e.shiftKey
    ensures !IsSendShortcut(e)
  {
  }

  /** Ctrl+Enter and Meta+Enter, without Alt or Shift, send. */
  lemma CtrlOrMetaEnterSends(e: KeyEvent)
    requires e.key == "Enter" && (e.ctrlKey || e.metaKey) && !e.altKey && !e.shiftKey
    ensures IsSendShortcut(e)
  {
  }

  /**
   * `isBypassSend`: the value of the bypass attribute (`getAttribute`, so
   * `None` when it is not set) is the string "true".
   */
  predicate IsBypassSend(attr: Option<string>) {
    attr == Some("true")
  }

  /** A button without the attribute, or with any other value, is intercepted. */
  lemma BypassOnlyTrue(attr: Option<string>)
    ensures attr.None? ==> !IsBypassSend(attr)
    ensures attr.Some? ==> (IsBypassSend(attr) <==> attr.value == "true")
  {
  }
}
