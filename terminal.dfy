/**
 * The terminal controller `si.tui.Terminal`: it saves the terminal's line
 * settings, switches it to raw mode with the alternate screen, a hidden
 * cursor and mouse reporting, keeps the last known size, and on `close`
 * reverses all of that, falling back to a second way of restoring the
 * settings when the first one fails.
 *
 * The outcome of every `stty` process is a parameter (`Completion`); what
 * the controller does to the terminal is the event trace of its `Device`.
 */
module Tui {
  import opened Errors
  import opened JavaText
  import opened Escapes
  import opened Control

  const Program: string := "stty"

  /** Print the current settings in a form `stty` accepts back. */
  const ModeArgs: seq<string> := ["-g"]

  /** Raw input, no echo, no line editing or signals, no output processing, 8-bit, non-blocking reads. */
  const RawArgs: seq<string> :=
    ["raw", "-echo", "-icanon", "-isig", "-iexten",
     "-ixon", "-icrnl", "-brkint", "-inpck", "-istrip",
     "-opost", "cs8", "min", "0", "time", "0"]

  /** Print the size as rows, then columns. */
  const SizeArgs: seq<string> := ["size"]

  /** The command line of an `stty` run with these arguments. */
  function Command(args: seq<string>): (argv: seq<string>)
    ensures |argv| == |args| + 1 && argv[0] == Program
    ensures forall k | 0 <= k < |args| :: argv[k + 1] == args[k]
  {
    [Program] + args
  }

  /**
   * What the `stty` helper returns for a process that completed as `c`:
   * the collected output on exit status 0, and otherwise the exception it
   * raises.
   */
  function SttyResult(c: Completion): (r: Result<string>)
    ensures r.Ok? <==> c.Exited? && c.code == 0
    ensures r.Ok? ==> r.value == Collect(c.lines)
    ensures r.Err? ==> r.error == if c.Exited? then SttyFailed(c.code, Collect(c.lines)) else SttyUnavailable
  {
    match c
    case Unavailable => Err(SttyUnavailable)
    case Exited(code, lines) =>
      if code != 0 then Err(SttyFailed(code, Collect(lines))) else Ok(Collect(lines))
  }

  /** The two words of a size report, when the trimmed output splits into exactly two. */
  function SizeTokens(output: string): (r: Option<(string, string)>)
    ensures r.Some? ==> r.value.0 != [] && NoSpace(r.value.0) && r.value.1 != [] && NoSpace(r.value.1)
  {
    var parts := Split(Trim(output));
    SplitOfTrimmed(Trim(output));
    if |parts| == 2 then Some((parts[0], parts[1])) else None
  }

  /** How a size query that completed as `c` ends. */
  datatype SizeReport =
    | QueryFailed(error: Error)
    | WrongCount
    | Parsed(height: Int32, width: Int32)
    | BadHeight(error: Error)
    /** The height was read and stored before the width failed to parse. */
    | BadWidth(height: Int32, error: Error)

  /**
   * How `updateSize` ends on a query that completed as `c`. A failed query
   * passes on the query's own error; a word the parser rejects is a whole
   * word of the report.
   */
  function SizeEffect(c: Completion): (r: SizeReport)
    ensures r.QueryFailed? <==> SttyResult(c).Err?
    ensures r.QueryFailed? ==> r.error == SttyResult(c).error
    ensures r.BadHeight? || r.BadWidth? ==> r.error.NumberFormat? && r.error.token != [] && NoSpace(r.error.token)
  {
    match SttyResult(c)
    case Err(e) => QueryFailed(e)
    case Ok(output) =>
      match SizeTokens(output)
      case None => WrongCount
      case Some((a, b)) =>
        match ParseInt(a)
        case Err(e) => BadHeight(e)
        case Ok(h) =>
          match ParseInt(b)
          case Err(e) => BadWidth(h, e)
          case Ok(w) => Parsed(h, w)
  }

  /**
   * The height after a size query ends as `rep`, when it was `h` before:
   * it is stored as soon as the first word parses, even if the width then
   * fails, and is otherwise kept.
   */
  function HeightAfter(rep: SizeReport, h: Int32): (r: Int32)
    ensures rep.Parsed? || rep.BadWidth? ==> r == rep.height
    ensures r != h ==> rep.Parsed? || rep.BadWidth?
  {
    match rep
    case Parsed(height, _) => height
    case BadWidth(height, _) => height
    case _ => h
  }

  /** The width after a size query ends as `rep`, when it was `w` before: stored only when both words parse. */
  function WidthAfter(rep: SizeReport, w: Int32): (r: Int32)
    ensures rep.Parsed? ==> r == rep.width
    ensures r != w ==> rep.Parsed?
  {
    if rep.Parsed? then rep.width else w
  }

  /** A size query that raises nothing. */
  predicate Completes(rep: SizeReport)
  {
    rep.WrongCount? || rep.Parsed?
  }

  /** The three `stty` runs of a construction: save the settings, go raw, query the size. */
  const SetupCalls: seq<Event> := [Run(Command(ModeArgs)), Run(Command(RawArgs)), Run(Command(SizeArgs))]

  /** Some event hands `mode` to `stty`: as its argument, or on its standard input. */
  predicate Delivers(events: seq<Event>, mode: string)
  {
    exists i | 0 <= i < |events| :: events[i] == Run(Command([mode])) || events[i] == Feed(mode)
  }

  /**
   * The fallback restore of `close` as written: an attempt to start a plain
   * `stty` whose input is redirected from `/dev/tty`. For such a process
   * Java hands the parent a null stream in place of its input, so writing
   * the saved settings raises, the exception is swallowed, and `saved`
   * never reaches the process.
   */
  function FallbackAsWritten(saved: string): (events: seq<Event>)
    ensures NoEscape(events)
    ensures |events| == 1 && events[0] == Run([Program])
    ensures !Delivers(events, saved)
  {
    [Run(Command([]))]
  }

  /** The fallback restore as intended: a plain `stty` that reads the saved settings on its input. */
  function Fallback(saved: string): (events: seq<Event>)
    ensures NoEscape(events)
    ensures Delivers(events, saved)
  {
    var events := [Run(Command([])), Feed(saved)];
    assert events[1] == Feed(saved);
    events
  }

  /** What `close` does to an initialized terminal whose saved settings are `saved`. */
  function CloseEvents(saved: string, primary: Completion): (r: seq<Event>)
    ensures |r| >= 5 && r[..4] == Emits(Exit)
    ensures forall i | 4 <= i < |r| :: r[i].Run?
  {
    Emits(Exit) + [Run(Command([saved]))] + (if SttyResult(primary).Err? then FallbackAsWritten(saved) else [])
  }

  class Terminal {
    const dev: Device
    const savedState: string
    var initialized: bool
    var width: Int32
    var height: Int32

    /** The object before its constructor's body has done anything but save the settings. */
    constructor Allocate(dev: Device, savedState: string)
      ensures this.dev == dev && this.savedState == savedState
      ensures !initialized && width == 80 && height == 24
    {
      this.dev := dev;
      this.savedState := savedState;
      initialized := false;
      width := 80;
      height := 24;
    }

    function Width(): int
      reads this
    {
      width
    }

    function Height(): int
      reads this
    {
      height
    }

    /** The command line: the program name, then the arguments copied after it. */
    static method BuildCommand(args: seq<string>) returns (cmd: array<string>)
      ensures cmd[..] == Command(args)
    {
      cmd := new string[|args| + 1];
      cmd[0] := Program;
      var i := 0;
      while i < |args|
        invariant 0 <= i <= |args|
        invariant cmd[0] == Program
        invariant forall k | 0 <= k < i :: cmd[k + 1] == args[k]
      {
        cmd[i + 1] := args[i];
        i := i + 1;
      }
    }

    /** Runs `stty` with `args`; its input is the terminal device. */
    static method Stty(dev: Device, args: seq<string>, c: Completion) returns (r: Result<string>)
      modifies dev`trace
      ensures dev.trace == old(dev.trace) + [Run(Command(args))]
      ensures r == SttyResult(c)
      ensures r.Ok? <==> c.Exited? && c.code == 0
    {
      var cmd := BuildCommand(args);
      dev.trace := dev.trace + [Run(cmd[..])];
      match c {
        case Unavailable =>
          r := Err(SttyUnavailable);
        case Exited(code, lines) =>
          var output := Collect(lines);
          if code != 0 {
            r := Err(SttyFailed(code, output));
          } else {
            r := Ok(output);
          }
      }
    }

    /**
     * The constructor: save the settings, go raw, read the size, enter the
     * session and register the shutdown hook. A failure of any of the three
     * `stty` runs, or a size word that is not a number, propagates out
     * before any escape sequence is written.
     */
    static method Open(dev: Device, modeQuery: Completion, rawMode: Completion, sizeQuery: Completion)
      returns (r: Result<Terminal>)
      modifies dev`trace
      ensures SttyResult(modeQuery).Err? ==>
        r == Err(SttyResult(modeQuery).error) && dev.trace == old(dev.trace) + [Run(Command(ModeArgs))]
      ensures SttyResult(modeQuery).Ok? && SttyResult(rawMode).Err? ==>
        r == Err(SttyResult(rawMode).error) && dev.trace == old(dev.trace) + SetupCalls[..2]
      ensures SttyResult(modeQuery).Ok? && SttyResult(rawMode).Ok? && !Completes(SizeEffect(sizeQuery)) ==>
        r == Err(SizeEffect(sizeQuery).error) && dev.trace == old(dev.trace) + SetupCalls
      ensures r.Err? ==> |old(dev.trace)| <= |dev.trace| && NoEscape(dev.trace[|old(dev.trace)|..])
      ensures r.Ok? <==> SttyResult(modeQuery).Ok? && SttyResult(rawMode).Ok? && Completes(SizeEffect(sizeQuery))
      ensures r.Ok? ==> fresh(r.value) && r.value.dev == dev && r.value.initialized
      ensures r.Ok? ==> r.value.savedState == Trim(SttyResult(modeQuery).value)
      ensures r.Ok? ==>
        r.value.height == HeightAfter(SizeEffect(sizeQuery), 24) && r.value.width == WidthAfter(SizeEffect(sizeQuery), 80)
      ensures r.Ok? ==> dev.trace == old(dev.trace) + SetupCalls + Emits(Entry) + [HookRegistered]
    {
      hide SizeEffect;
      ghost var before := dev.trace;
      var mode := Stty(dev, ModeArgs, modeQuery);
      if mode.Err? {
        assert dev.trace[|before|..] == [Run(Command(ModeArgs))];
        return Err(mode.error);
      }
      var t := new Terminal.Allocate(dev, Trim(mode.value));
      var raw := Stty(dev, RawArgs, rawMode);
      if raw.Err? {
        assert dev.trace[|before|..] == SetupCalls[..2];
        return Err(raw.error);
      }
      var size := t.UpdateSize(sizeQuery);
      assert dev.trace == before + SetupCalls;
      if size.Err? {
        assert dev.trace[|before|..] == SetupCalls;
        return Err(size.error);
      }
      ghost var setup := dev.trace;
      dev.trace := dev.trace + [Emit(AltScreenOn)];
      dev.trace := dev.trace + [Emit(CursorHide)];
      dev.trace := dev.trace + [Emit(MouseOn)];
      dev.trace := dev.trace + [Emit(ClearScreen)];
      assert dev.trace == setup + [Emit(AltScreenOn), Emit(CursorHide), Emit(MouseOn), Emit(ClearScreen)];
      EmitsOfEntry();
      t.initialized := true;
      dev.trace := dev.trace + [HookRegistered];
      return Ok(t);
    }

    /**
     * Queries the size. Exactly two words set the height from the first and
     * the width from the second; any other count changes nothing. A failed
     * query or a word that is not a number raises, after the height has
     * been stored when only the width is bad.
     */
    method UpdateSize(sizeQuery: Completion) returns (r: Result<()>)
      modifies this`width, this`height, dev`trace
      ensures dev.trace == old(dev.trace) + [Run(Command(SizeArgs))]
      ensures r.Ok? <==> Completes(SizeEffect(sizeQuery))
      ensures r.Err? ==> r.error == SizeEffect(sizeQuery).error
      ensures height == HeightAfter(SizeEffect(sizeQuery), old(height))
      ensures width == WidthAfter(SizeEffect(sizeQuery), old(width))
    {
      var output := Stty(dev, SizeArgs, sizeQuery);
      if output.Err? {
        return Err(output.error);
      }
      var parts := SizeTokens(output.value);
      if parts.Some? {
        var h := ParseInt(parts.value.0);
        if h.Err? {
          return Err(h.error);
        }
        height := h.value;
        var w := ParseInt(parts.value.1);
        if w.Err? {
          return Err(w.error);
        }
        width := w.value;
      }
      return Ok(());
    }

    /**
     * Leaves the session. Uninitialized, it does nothing. Otherwise it
     * writes the exit sequences and restores the saved settings with
     * `stty`; when that fails it attempts the fallback as written, which
     * starts a plain `stty` only, and it always ends uninitialized; no
     * failure leaves it.
     */
    method Close(primary: Completion)
      modifies this`initialized, dev`trace
      ensures !initialized
      ensures dev.trace == old(dev.trace) + if old(initialized) then CloseEvents(savedState, primary) else []
    {
      if !initialized {
        return;
      }
      dev.trace := dev.trace + [Emit(ResetAttrs)];
      dev.trace := dev.trace + [Emit(MouseOff)];
      dev.trace := dev.trace + [Emit(CursorShow)];
      dev.trace := dev.trace + [Emit(AltScreenOff)];
      EmitsOfExit();
      assert dev.trace == old(dev.trace) + Emits(Exit);
      var restored := Stty(dev, [savedState], primary);
      if restored.Err? {
        dev.trace := dev.trace + FallbackAsWritten(savedState);
      }
      initialized := false;
    }
  }

  // -----------------------------------------------------------------------
  // Properties of the size query
  // -----------------------------------------------------------------------

  /**
   * A one-line report of words separated by single spaces yields a pair of
   * words exactly when there are two of them, first word first.
   */
  lemma SizeTokensOfLine(ts: seq<string>)
    requires forall k | 0 <= k < |ts| :: IsToken(ts[k])
    ensures SizeTokens(Collect([Join(ts, " ")])) == if |ts| == 2 then Some((ts[0], ts[1])) else None
  {
    hide Trim, Split, Collect;
    var line := Join(ts, " ");
    JoinIsTrimmed(ts);
    SavedModeRoundTrip(line);
    SplitOfTrimmed(line);
    if ts != [] {
      FieldsOfJoin(ts, " ");
    }
    assert Split(Trim(Collect([line]))) == if ts == [] then [""] else ts;
  }

  /**
   * The report `stty size` prints, rows then columns, sets the height to
   * the rows and the width to the columns.
   */
  lemma SizeEffectOfReport(rows: Int32, cols: Int32)
    ensures SizeEffect(Exited(0, [IntToString(rows) + " " + IntToString(cols)])) == Parsed(rows, cols)
  {
    var ts := [IntToString(rows), IntToString(cols)];
    assert Join(ts, " ") == IntToString(rows) + " " + IntToString(cols) by {
      assert ts[1..] == [IntToString(cols)];
    }
    SizeTokensOfLine(ts);
    ParseIntOfIntToString(rows);
    ParseIntOfIntToString(cols);
  }

  /** A report of one word, or of three or more, leaves the size as it was, whatever the words. */
  lemma SizeEffectOfWrongCount(ts: seq<string>)
    requires forall k | 0 <= k < |ts| :: IsToken(ts[k])
    requires |ts| != 2
    ensures SizeEffect(Exited(0, [Join(ts, " ")])) == WrongCount
  {
    SizeTokensOfLine(ts);
  }

  /**
   * Two words of which the second is not a number: the height is taken
   * from the first, then the width raises.
   */
  lemma SizeEffectOfBadWidth(rows: Int32, word: string)
    requires IsToken(word) && ParseInt(word).Err?
    ensures SizeEffect(Exited(0, [IntToString(rows) + " " + word])) == BadWidth(rows, NumberFormat(word))
  {
    var ts := [IntToString(rows), word];
    assert Join(ts, " ") == IntToString(rows) + " " + word by {
      assert ts[1..] == [word];
    }
    SizeTokensOfLine(ts);
    ParseIntOfIntToString(rows);
  }

  /** "24 80" sets the height to 24 and the width to 80. */
  lemma SizeExampleReport()
    ensures SizeEffect(Exited(0, ["24 80"])) == Parsed(24, 80)
  {
    hide SizeEffect, Collect, Split, Trim;
    assert IntToString(24) + " " + IntToString(80) == "24 80";
    SizeEffectOfReport(24, 80);
  }

  /** "garbage" and "24" are one word each: nothing changes. */
  lemma SizeExampleOneWord()
    ensures SizeEffect(Exited(0, ["garbage"])) == WrongCount
    ensures SizeEffect(Exited(0, ["24"])) == WrongCount
  {
    hide SizeEffect, Collect, Split, Trim;
    SizeEffectOfWrongCount(["garbage"]);
    SizeEffectOfWrongCount(["24"]);
  }

  /** "24 abc": the height becomes 24, then the width raises. */
  lemma SizeExampleBadWidth()
    ensures SizeEffect(Exited(0, ["24 abc"])) == BadWidth(24, NumberFormat("abc"))
  {
    hide SizeEffect, Collect, Split, Trim;
    assert IntToString(24) + " " + "abc" == "24 abc";
    assert !IsDigit('a');
    SizeEffectOfBadWidth(24, "abc");
  }

  // -----------------------------------------------------------------------
  // Properties of the session
  // -----------------------------------------------------------------------

  /**
   * The settings `stty -g` prints on one line are saved exactly: trimming
   * the collected output gives back the line.
   */
  lemma SavedModeRoundTrip(mode: string)
    requires IsTrimmed(mode)
    ensures Trim(Collect([mode])) == mode
  {
    assert Collect([mode]) == "" + mode + "\n";
    TrimUnique("", mode, "\n");
  }

  /** The exit sequences come first, then the primary restore, then the fallback exactly when the primary failed. */
  lemma CloseEventsOrder(saved: string, primary: Completion)
    ensures CloseEvents(saved, primary)[..4] == Emits(Exit)
    ensures CloseEvents(saved, primary)[4] == Run([Program, saved])
    ensures |CloseEvents(saved, primary)| == if SttyResult(primary).Err? then 6 else 5
    ensures SttyResult(primary).Err? ==> CloseEvents(saved, primary)[5] == Run([Program])
  {
  }

  /** When the primary restore succeeds, `close` runs nothing after it. */
  lemma CloseEventsWhenRestored(saved: string, primary: Completion)
    requires SttyResult(primary).Ok?
    ensures CloseEvents(saved, primary) == Emits(Exit) + [Run([Program, saved])]
  {
    assert Command([saved]) == [Program, saved];
  }

  /**
   * The fallback as written never hands the saved settings to `stty`: once
   * the primary restore has failed, nothing `close` does afterwards
   * delivers them.
   */
  lemma FallbackAsWrittenLosesSettings(saved: string, primary: Completion)
    requires SttyResult(primary).Err?
    ensures !Delivers(CloseEvents(saved, primary)[5..], saved)
  {
    var r := CloseEvents(saved, primary);
    assert r == Emits(Exit) + [Run(Command([saved]))] + [Run(Command([]))];
    assert r[5..] == [Run(Command([]))];
    assert Command([]) != Command([saved]);
  }

  /** The intended fallback delivers the saved settings, after starting `stty` and to its input. */
  lemma FallbackDeliversSettings(saved: string)
    ensures Delivers(Fallback(saved), saved)
    ensures Fallback(saved)[0] == Run([Program]) && Fallback(saved)[1] == Feed(saved)
  {
    assert Fallback(saved)[1] == Feed(saved);
  }

  /** The three `stty` runs of a construction write no escape sequence. */
  lemma SetupWritesNothing()
    ensures Written(SetupCalls) == []
  {
    assert NoEscape(SetupCalls);
    NoEscapeWritesNothing(SetupCalls);
  }

  /** Setup events that write nothing, then entry, the hook, exit and a run, write entry then exit. */
  lemma SessionWritten(setup: seq<Event>, mode: string)
    requires Written(setup) == []
    ensures Written(setup + Emits(Entry) + [HookRegistered] + Emits(Exit) + [Run([Program, mode])]) == Entry + Exit
  {
    hide Written, Emits;
    var c, e := [HookRegistered], [Run([Program, mode])];
    assert NoEscape(c) && NoEscape(e);
    NoEscapeWritesNothing(c);
    NoEscapeWritesNothing(e);
    WrittenOfEmits(Entry);
    WrittenOfEmits(Exit);
    var s1 := setup + Emits(Entry);
    WrittenAppend(setup, Emits(Entry));
    assert Written(s1) == Entry;
    var s2 := s1 + c;
    WrittenAppend(s1, c);
    assert Written(s2) == Entry + [];
    var s3 := s2 + Emits(Exit);
    WrittenAppend(s2, Emits(Exit));
    assert Written(s3) == Entry + [] + Exit;
    WrittenAppend(s3, e);
    assert Written(s3 + e) == Entry + [] + Exit + [];
    assert Entry + [] + Exit + [] == Entry + Exit;
  }

  /**
   * The escape sequences of a whole session are the entry ones followed by
   * the exit ones, so the session leaves a normal terminal's display modes
   * normal.
   */
  lemma SessionRestoresDisplay(mode: string)
    ensures Written(SetupCalls + Emits(Entry) + [HookRegistered] + Emits(Exit) + [Run([Program, mode])]) == Entry + Exit
    ensures Play(Normal, Written(SetupCalls + Emits(Entry) + [HookRegistered] + Emits(Exit) + [Run([Program, mode])])) == Normal
  {
    hide Written, Emits, Play, Command;
    SetupWritesNothing();
    SessionWritten(SetupCalls, mode);
    SessionIsReversible([]);
    assert Entry + [] + Exit == Entry + Exit;
  }

  /** A second `close` after the first writes nothing and runs nothing. */
  method CloseTwice(t: Terminal, first: Completion, second: Completion)
    modifies t`initialized, t.dev`trace
    ensures !t.initialized
    ensures t.dev.trace == old(t.dev.trace) + if old(t.initialized) then CloseEvents(t.savedState, first) else []
  {
    t.Close(first);
    t.Close(second);
  }

  /** The trace of a session is the trace after construction followed by what `close` adds. */
  lemma SessionTrace(before: seq<Event>, started: seq<Event>, after: seq<Event>, mode: string)
    requires started == before + SetupCalls + Emits(Entry) + [HookRegistered]
    requires after == started + (Emits(Exit) + [Run([Program, mode])])
    ensures after == before + SetupCalls + Emits(Entry) + [HookRegistered] + Emits(Exit) + [Run([Program, mode])]
  {
  }

  /**
   * A whole session on a terminal whose settings `stty -g` reports as
   * `mode`: after a successful construction and a `close` whose primary
   * restore succeeds, the last thing run is `stty` with exactly `mode`,
   * and the escape sequences written are the entry ones followed by the exit
   * ones (which `SessionRestoresDisplay` shows leave the display modes normal).
   */
  method Session(dev: Device, mode: string, rawMode: Completion, sizeQuery: Completion, restore: Completion)
    returns (t: Result<Terminal>)
    requires IsTrimmed(mode)
    requires SttyResult(rawMode).Ok? && Completes(SizeEffect(sizeQuery)) && SttyResult(restore).Ok?
    modifies dev`trace
    ensures t.Ok? && !t.value.initialized && t.value.savedState == mode
    ensures dev.trace == old(dev.trace) + SetupCalls + Emits(Entry) + [HookRegistered] + Emits(Exit) + [Run([Program, mode])]
  {
    SavedModeRoundTrip(mode);
    assert SttyResult(Exited(0, [mode])) == Ok(Collect([mode]));
    CloseEventsWhenRestored(mode, restore);
    hide SizeEffect, SttyResult, CloseEvents, Emits, Collect, Trim, FallbackAsWritten, Delivers, HeightAfter, WidthAfter, Command;
    t := Terminal.Open(dev, Exited(0, [mode]), rawMode, sizeQuery);
    ghost var started := dev.trace;
    t.value.Close(restore);
    SessionTrace(old(dev.trace), started, dev.trace, mode);
  }
}
