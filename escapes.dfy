/**
 * The escape-sequence catalog: the eight sequences the terminal controller
 * writes to standard output, the order in which it writes them on entry and
 * on exit, and the screen modes they switch.
 */
module Escapes {

  /** The named sequences of the `Escape` class; their bytes are opaque here. */
  datatype Escape =
    | AltScreenOn | AltScreenOff
    | CursorHide | CursorShow
    | MouseOn | MouseOff
    | ClearScreen | ResetAttrs

  /** Written by the constructor, in this order. */
  const Entry: seq<Escape> := [AltScreenOn, CursorHide, MouseOn, ClearScreen]

  /** Written by `close`, in this order. */
  const Exit: seq<Escape> := [ResetAttrs, MouseOff, CursorShow, AltScreenOff]

  /** A sequence that switches one display mode on or off. */
  predicate IsModeSwitch(e: Escape)
  {
    !(e == ClearScreen || e == ResetAttrs)
  }

  /** The sequence that switches the same mode the other way. */
  function Undo(e: Escape): (u: Escape)
    requires IsModeSwitch(e)
    ensures IsModeSwitch(u) && u != e
  {
    match e
    case AltScreenOn => AltScreenOff
    case AltScreenOff => AltScreenOn
    case CursorHide => CursorShow
    case CursorShow => CursorHide
    case MouseOn => MouseOff
    case MouseOff => MouseOn
  }

  /** The three display modes the sequences switch. */
  datatype Screen = Screen(alternate: bool, cursorHidden: bool, mouse: bool)

  /** The modes of a terminal no program has switched. */
  const Normal: Screen := Screen(false, false, false)

  function Apply(s: Screen, e: Escape): Screen
  {
    match e
    case AltScreenOn => s.(alternate := true)
    case AltScreenOff => s.(alternate := false)
    case CursorHide => s.(cursorHidden := true)
    case CursorShow => s.(cursorHidden := false)
    case MouseOn => s.(mouse := true)
    case MouseOff => s.(mouse := false)
    case ClearScreen => s
    case ResetAttrs => s
  }

  /** The modes after writing `es` in order, starting from `s`. */
  function Play(s: Screen, es: seq<Escape>): Screen
    decreases es
  {
    if es == [] then s else Play(Apply(s, es[0]), es[1..])
  }

  /**
   * Entry ends with the screen clear and exit starts with the attribute
   * reset; between them, the three mode switches of exit are those of entry
   * in reverse order, each switched the other way.
   */
  lemma ExitMirrorsEntry()
    ensures Entry[3] == ClearScreen && Exit[0] == ResetAttrs
    ensures forall i | 0 <= i < 3 :: IsModeSwitch(Entry[i]) && Exit[3 - i] == Undo(Entry[i])
  {
  }

  lemma {:induction false} PlayAppend(s: Screen, a: seq<Escape>, b: seq<Escape>)
    ensures Play(s, a + b) == Play(Play(s, a), b)
    decreases a
  {
    if a == [] {
      assert a + b == b;
    } else {
      assert (a + b)[1..] == a[1..] + b;
      PlayAppend(Apply(s, a[0]), a[1..], b);
    }
  }

  /** Entry switches on the alternate screen, hides the cursor and turns on mouse reporting. */
  lemma EntryStartsSession(s: Screen)
    ensures Play(s, Entry) == Screen(true, true, true)
  {
    assert Entry[1..][1..][1..][1..] == [];
  }

  /** Whatever the modes are when it starts, the exit sequence leaves them normal. */
  lemma ExitRestoresNormal(s: Screen)
    ensures Play(s, Exit) == Normal
  {
    assert Exit[1..][1..][1..][1..] == [];
  }

  /**
   * A session that writes the entry sequences, then anything at all, then
   * the exit sequences, leaves the display modes as it found a normal
   * terminal.
   */
  lemma SessionIsReversible(during: seq<Escape>)
    ensures Play(Normal, Entry + during + Exit) == Normal
  {
    PlayAppend(Normal, Entry + during, Exit);
    ExitRestoresNormal(Play(Normal, Entry + during));
  }
}
