/** Key presses as the terminal library reports them (crossterm's `KeyEvent`). */
module Keys {

  datatype Modifier = Shift | Control | Alt | Super | Hyper | Meta

  datatype KeyCode = Char(c: char) | Enter | Esc | Left | Right | OtherCode(id: nat)

  /** A key code with the exact set of modifiers held; `KeyModifiers::NONE` is the empty set. */
  datatype Key = Key(code: KeyCode, modifiers: set<Modifier>)

  /** Anything the terminal can report: a key, or a mouse, resize, focus or paste event. */
  datatype TerminalEvent = KeyPress(key: Key) | OtherEvent

  /** Ctrl+C: the code `Char('c')` with exactly the Control modifier. */
  predicate IsCtrlC(k: Key) {
    k.modifiers == {Control} && k.code == Char('c')
  }

  /** A key pressed without modifiers. */
  function Plain(code: KeyCode): Key {
    Key(code, {})
  }

  /** What one tick of polling the terminal gave: nothing within the tick, an event, or an error from `poll` or `read`. */
  datatype Poll = Idle | Input(event: TerminalEvent) | PollFailed
}
