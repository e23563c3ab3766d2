/**
 * The boundary of the terminal controller: the `stty` processes it starts
 * and the standard output it writes escape sequences to. Nothing here runs
 * a process; each run is described by how it completed, and everything the
 * controller does to the outside world is recorded, in order, as an event.
 */
module Control {
  import opened Errors
  import opened Escapes

  /** How one run of an external process ended. */
  datatype Completion =
    /** The process ran; its exit status and the lines of its merged stdout and stderr. */
    | Exited(code: int, lines: seq<string>)
    /** The process could not be started, its output could not be read, or the wait was interrupted. */
    | Unavailable

  /** One effect of the controller on the terminal. */
  datatype Event =
    /** An escape sequence printed to standard output. */
    | Emit(code: Escape)
    /** An attempt to start a process with this command line; whether it started is its `Completion`. */
    | Run(argv: seq<string>)
    /** These characters delivered to the standard input of the process last started. */
    | Feed(input: string)
    /** The shutdown hook that closes the terminal was registered. */
    | HookRegistered

  /** The terminal device and standard output, seen as the events they receive. */
  class Device {
    ghost var trace: seq<Event>

    constructor ()
      ensures trace == []
    {
      trace := [];
    }
  }

  /** The output of a process as the `stty` helper collects it: every line followed by a newline. */
  function Collect(lines: seq<string>): (out: string)
    ensures lines != [] ==> out != [] && out[|out| - 1] == '\n'
  {
    if lines == [] then "" else Collect(lines[..|lines| - 1]) + lines[|lines| - 1] + "\n"
  }

  /** The events of writing `es` to standard output, in order. */
  function Emits(es: seq<Escape>): (r: seq<Event>)
    ensures |r| == |es| && forall i | 0 <= i < |es| :: r[i] == Emit(es[i])
  {
    if es == [] then [] else [Emit(es[0])] + Emits(es[1..])
  }

  lemma EmitsOfEntry()
    ensures Emits(Entry) == [Emit(AltScreenOn), Emit(CursorHide), Emit(MouseOn), Emit(ClearScreen)]
  {
  }

  lemma EmitsOfExit()
    ensures Emits(Exit) == [Emit(ResetAttrs), Emit(MouseOff), Emit(CursorShow), Emit(AltScreenOff)]
  {
  }

  /** No escape sequence among `events`. */
  predicate NoEscape(events: seq<Event>)
  {
    forall i | 0 <= i < |events| :: !events[i].Emit?
  }

  /** The escape sequences written among `events`, in order. */
  function Written(events: seq<Event>): (es: seq<Escape>)
    ensures |es| <= |events|
  {
    if events == [] then []
    else (if events[0].Emit? then [events[0].code] else []) + Written(events[1..])
  }

  lemma {:induction false} WrittenAppend(a: seq<Event>, b: seq<Event>)
    ensures Written(a + b) == Written(a) + Written(b)
  {
    if a == [] {
      assert a + b == b;
    } else {
      var head := if a[0].Emit? then [a[0].code] else [];
      assert (a + b)[0] == a[0] && (a + b)[1..] == a[1..] + b;
      assert Written(a + b) == head + Written(a[1..] + b);
      WrittenAppend(a[1..], b);
      assert head + (Written(a[1..]) + Written(b)) == (head + Written(a[1..])) + Written(b);
    }
  }

  /** Round trip: the sequences written by `Emits(es)` are `es`. */
  lemma {:induction false} WrittenOfEmits(es: seq<Escape>)
    ensures Written(Emits(es)) == es
  {
    if es != [] {
      assert Emits(es)[1..] == Emits(es[1..]);
      WrittenOfEmits(es[1..]);
    }
  }

  /** Events with no escape among them write nothing, and conversely. */
  lemma {:induction false} NoEscapeWritesNothing(events: seq<Event>)
    ensures NoEscape(events) <==> Written(events) == []
  {
    if events != [] {
      NoEscapeWritesNothing(events[1..]);
      if NoEscape(events[1..]) && !events[0].Emit? {
        assert NoEscape(events) by {
          forall i | 0 <= i < |events|
            ensures !events[i].Emit?
          {
            if i > 0 {
              assert events[i] == events[1..][i - 1];
            }
          }
        }
      }
    }
  }
}
