/** Key dispatch of the dashboard: one terminal event becomes either the
    quit error or `Ok`, together with the application calls it makes. */
module Input {

  datatype Result<T, E> = Ok(value: T) | Err(error: E)

  /** The kind of the `io::Error` that signals the user asked to quit. */
  datatype ErrorKind = Interrupted

  /** The key codes of a terminal key event. */
  datatype KeyCode =
    | Backspace | Enter | Left | Right | Up | Down | Home | End
    | PageUp | PageDown | Tab | BackTab | Delete | Insert
    | F(n: nat) | Char(c: char) | Null | Esc

  datatype KeyModifiers = KeyModifiers(shift: bool, control: bool, alt: bool)

  datatype KeyEvent = KeyEvent(code: KeyCode, modifiers: KeyModifiers)

  datatype MouseEvent = MouseEvent(column: nat, row: nat)

  /** A terminal event: a key press, or anything else. */
  datatype Event =
    | Key(key: KeyEvent)
    | Mouse(mouse: MouseEvent)
    | Resize(columns: nat, rows: nat)
    | FocusGained
    | FocusLost
    | Paste(text: string)

  /** The application methods the dispatch invokes. */
  datatype AppCall = SelectNextChip | SelectPreviousChip | SetPinnedChip

  /** What one call of `handle_input` does: the calls it makes on the
      application, in order, and the value it returns. */
  datatype Dispatch = Dispatch(calls: seq<AppCall>, result: Result<(), ErrorKind>)

  /** `handle_input`. */
  function HandleInput(event: Event): (d: Dispatch)
    ensures |d.calls| <= 1
    ensures d.result.Err? ==> d.calls == [] && d.result.error == Interrupted
    ensures !event.Key? ==> d == Dispatch([], Ok(()))
  {
    match event
    case Key(k) => (
      match k.code
      case Esc => Dispatch([], Err(Interrupted))
      case Char('q') => Dispatch([], Err(Interrupted))
      case Down => Dispatch([SelectNextChip], Ok(()))
      case Char('j') => Dispatch([SelectNextChip], Ok(()))
      case Up => Dispatch([SelectPreviousChip], Ok(()))
      case Char('k') => Dispatch([SelectPreviousChip], Ok(()))
      case Enter => Dispatch([SetPinnedChip], Ok(()))
      case Char('p') => Dispatch([SetPinnedChip], Ok(()))
      case _ => Dispatch([], Ok(())))
    case _ => Dispatch([], Ok(()))
  }

  /** The user-facing outcome of one event. */
  datatype Command = Quit | Next | Previous | Pin | NoOp

  /** The key bindings as a table, the reference the dispatch is checked
      against. */
  const Bindings: seq<(KeyCode, Command)> := [
    (Esc, Quit), (Char('q'), Quit),
    (Down, Next), (Char('j'), Next),
    (Up, Previous), (Char('k'), Previous),
    (Enter, Pin), (Char('p'), Pin)
  ]

  /** The command bound to a key code in a table: that of the first row
      from index `i` on with this code, or `NoOp` when there is none. */
  function LookupFrom(table: seq<(KeyCode, Command)>, code: KeyCode, i: nat): Command
    requires i <= |table|
    decreases |table| - i
  {
    if i == |table| then NoOp
    else if table[i].0 == code then table[i].1
    else LookupFrom(table, code, i + 1)
  }

  function Lookup(table: seq<(KeyCode, Command)>, code: KeyCode): Command
  {
    LookupFrom(table, code, 0)
  }

  /** A code that no row of the table mentions from index `i` on is unbound. */
  lemma {:induction false} LookupMiss(table: seq<(KeyCode, Command)>, code: KeyCode, i: nat)
    requires i <= |table|
    requires forall j :: i <= j < |table| ==> table[j].0 != code
    ensures LookupFrom(table, code, i) == NoOp
    decreases |table| - i
  {
    if i < |table| {
      LookupMiss(table, code, i + 1);
    }
  }

  /** The table binds Esc and `q` to quit, Down and `j` to next, Up and
      `k` to previous, Enter and `p` to pin. */
  lemma QuitBound()
    ensures Lookup(Bindings, Esc) == Quit && Lookup(Bindings, Char('q')) == Quit
  {
  }

  lemma NextBound()
    ensures Lookup(Bindings, Down) == Next && Lookup(Bindings, Char('j')) == Next
  {
  }

  lemma PreviousBound()
    ensures Lookup(Bindings, Up) == Previous && Lookup(Bindings, Char('k')) == Previous
  {
  }

  lemma PinBound()
    ensures Lookup(Bindings, Enter) == Pin && Lookup(Bindings, Char('p')) == Pin
  {
  }

  /** The command an event stands for. */
  function CommandOf(event: Event): Command
  {
    if event.Key? then Lookup(Bindings, event.key.code) else NoOp
  }

  /** What a command should do: quit returns the interrupted error and calls
      nothing; every other command returns `Ok` after at most one call. */
  function Effect(c: Command): Dispatch
  {
    match c
    case Quit => Dispatch([], Err(Interrupted))
    case Next => Dispatch([SelectNextChip], Ok(()))
    case Previous => Dispatch([SelectPreviousChip], Ok(()))
    case Pin => Dispatch([SetPinnedChip], Ok(()))
    case NoOp => Dispatch([], Ok(()))
  }

  /** The dispatch agrees with the binding table on every event. */
  lemma HandleInputFollowsBindings(event: Event)
    ensures HandleInput(event) == Effect(CommandOf(event))
  {
    if event.Key? {
      var k := event.key;
      if k.code == Esc || k.code == Char('q') {
        QuitBound();
        BoundKeys(k.modifiers);
      } else if k.code == Down || k.code == Char('j') {
        NextBound();
        BoundKeys(k.modifiers);
      } else if k.code == Up || k.code == Char('k') {
        PreviousBound();
        BoundKeys(k.modifiers);
      } else if k.code == Enter || k.code == Char('p') {
        PinBound();
        BoundKeys(k.modifiers);
      } else {
        forall i | 0 <= i < |Bindings| ensures Bindings[i].0 != k.code {
          assert i < 8;
        }
        UnboundKeysDoNothing(k);
      }
    }
  }

  /** Only a quit key yields an error, and a quit key always does. */
  lemma ErrIffQuitKey(event: Event)
    ensures HandleInput(event).result.Err? <==>
      (event.Key? && (event.key.code == Esc || event.key.code == Char('q')))
  {
  }

  /** Each bound key, whatever its modifiers: the quit keys return the
      interrupted error without a call, the others make exactly their one
      call and return `Ok`. */
  lemma BoundKeys(m: KeyModifiers)
    ensures HandleInput(Key(KeyEvent(Esc, m))) == Dispatch([], Err(Interrupted))
    ensures HandleInput(Key(KeyEvent(Char('q'), m))) == Dispatch([], Err(Interrupted))
    ensures HandleInput(Key(KeyEvent(Down, m))) == Dispatch([SelectNextChip], Ok(()))
    ensures HandleInput(Key(KeyEvent(Char('j'), m))) == Dispatch([SelectNextChip], Ok(()))
    ensures HandleInput(Key(KeyEvent(Up, m))) == Dispatch([SelectPreviousChip], Ok(()))
    ensures HandleInput(Key(KeyEvent(Char('k'), m))) == Dispatch([SelectPreviousChip], Ok(()))
    ensures HandleInput(Key(KeyEvent(Enter, m))) == Dispatch([SetPinnedChip], Ok(()))
    ensures HandleInput(Key(KeyEvent(Char('p'), m))) == Dispatch([SetPinnedChip], Ok(()))
  {
  }

  /** Any key code outside the binding table is bound to nothing, does
      nothing and returns `Ok`. */
  lemma UnboundKeysDoNothing(k: KeyEvent)
    requires forall i :: 0 <= i < |Bindings| ==> Bindings[i].0 != k.code
    ensures CommandOf(Key(k)) == NoOp
    ensures HandleInput(Key(k)) == Dispatch([], Ok(()))
  {
    LookupMiss(Bindings, k.code, 0);
    assert Bindings[0].0 == Esc && Bindings[1].0 == Char('q');
    assert Bindings[2].0 == Down && Bindings[3].0 == Char('j');
    assert Bindings[4].0 == Up && Bindings[5].0 == Char('k');
    assert Bindings[6].0 == Enter && Bindings[7].0 == Char('p');
  }

  /** The outcome depends on the key code only, not on the modifiers. */
  lemma ModifiersIgnored(code: KeyCode, m1: KeyModifiers, m2: KeyModifiers)
    ensures HandleInput(Key(KeyEvent(code, m1))) == HandleInput(Key(KeyEvent(code, m2)))
  {
  }
}
