# Terminal mode controller, modelled in Dafny

This project models `si.tui.Terminal`, the class of the Java TUI library
that owns the terminal for the length of a session:

- **Construction** saves the terminal's line settings with `stty -g` and trims them.
  It then switches the terminal to raw mode with a second `stty` and reads the size with `stty size`.
  Next it writes the entry escape sequences in a fixed order: alternate screen on, cursor hidden, mouse reporting on, screen cleared.
  Finally it marks itself initialized and registers a shutdown hook that closes it.
- **`updateSize`** trims the size report and splits it on runs of whitespace.
  When there are exactly two words, it parses the first as the height and then the second as the width.
- **`close`** does nothing on an object that is not initialized.
  Otherwise it writes the exit escape sequences in order: attributes reset, mouse reporting off, cursor shown, alternate screen off.
  It then restores the saved settings with `stty <saved>`.
  If that fails, it falls back to starting a plain `stty` and writing the saved settings to its input, and it swallows every failure of the fallback.
  As written, that fallback never delivers the settings (see "## Findings").
  It always ends uninitialized.
- **The private `stty` helper** runs `stty` with the given arguments, with `/dev/tty` as its input.
  It collects the merged output, one line followed by a newline at a time.
  A non-zero exit status, or any checked exception, becomes a `RuntimeException`.

Nothing here starts a process. Every `stty` run is modelled as a `Completion` value passed in as a parameter.
`Exited(code, lines)` is a run that finished.
`Unavailable` is a run that could not be started, could not be read, or whose wait was interrupted.

Everything the controller does to the outside world is appended to the ghost `trace` of a `Device` object, in order. That covers:

- each escape sequence written to standard output;
- each `stty` command line whose start was attempted (whether it started is its `Completion`);
- characters delivered to a process's standard input (only the intended fallback has any);
- the registration of the hook.

The trace lives on the `Device` rather than on the `Terminal`, so what a failed construction did is still visible afterwards.

Files:

- `errors.dfy` (`Errors`): the exceptions the controller can raise, and `Result`/`Option`.
- `javatext.dfy` (`JavaText`):
  - the three Java library operations the size query depends on: `String.trim()`, `String.split("\\s+")` and `Integer.parseInt`;
  - `Integer.toString`, as the partner of the parser;
  - the round trips between them.
- `escapes.dfy` (`Escapes`):
  - the eight named escape sequences;
  - the entry order and the exit order;
  - the display modes those sequences switch.
- `control.dfy` (`Control`): process completions, trace events, the `Device`, and output collection.
- `terminal.dfy` (`Tui`): the `Terminal` class itself, the functions that specify it, and the lemmas about it.

Java's constructor is `Terminal.Open`, a static factory that returns `Result<Terminal>`.
A constructor that throws becomes `Err`.
`Open` allocates the object with `Terminal.Allocate`, which sets the field defaults (80 columns, 24 rows, not initialized) and the saved settings.
The rest of the Java constructor body is then performed on that object.
`width()` and `height()` are the functions `Terminal.Width` and `Terminal.Height`. They read the fields and carry no contract of their own.

Two behaviours of the code might be expected to be gentler than they are; the model follows the code:

- **A failed size query during construction is fatal.**
  - One might expect a size failure during construction to be non-fatal, with the dimensions keeping their defaults.
  - In the code, `updateSize` is called unguarded from the constructor.
  - So a failing `stty size`, or a size word that is not a number, makes the constructor throw the error `updateSize` raised. It does so after the terminal has already been put in raw mode, with no escape sequence written and no hook registered.
  - `Terminal.Open` states exactly this.
- **`updateSize` raises on a non-number and on a failed query.**
  - Only a wrong word count is ignored. A word that `parseInt` rejects raises `NumberFormatException`, and a failed `stty size` raises its own error.
  - When only the second word is bad, the height has already been changed. This is the `BadWidth` outcome of `SizeEffect`.

## Model

| member | source | states |
|---|---|---|
| Tui.Terminal.Allocate | java/src/si/tui/Terminal.java:7-11 | A new object is not initialized and has width 80 and height 24, the field defaults. |
| Tui.Terminal.BuildCommand | java/src/si/tui/Terminal.java:84-86 | The command array is `stty` followed by the arguments, in order: element 0 is the program and element k+1 is argument k. |
| Tui.Terminal.Stty | java/src/si/tui/Terminal.java:82-111 | Exactly one command line is attempted, `stty` plus the arguments. It succeeds exactly when the process exited with status 0, returning the collected output. A non-zero status fails with that status and the output. A process that cannot be run or read fails with `SttyUnavailable`. |
| Tui.Terminal.Open | java/src/si/tui/Terminal.java:13-31 | Construction succeeds exactly when the mode query succeeds, the raw-mode call succeeds and the size query completes. A failure at each of the three steps raises that step's own error unchanged and leaves exactly the runs made so far on the trace, with no escape sequence. On success the trace is the three runs, then the entry sequences in order, then the hook registration. The new object is initialized, and its saved settings are the trimmed `stty -g` output. Its height and width are what the size query set, or the defaults. |
| Tui.Terminal.UpdateSize | java/src/si/tui/Terminal.java:33-40 | Exactly one `stty size` is run. The call returns normally exactly when the report has the wrong word count or both words parse; otherwise it raises the query's error or the `NumberFormatException` for the rejected word. Height and width take the values of `SizeEffect`: the height changes even when only the width then fails to parse, and a wrong word count changes neither. |
| Tui.Terminal.Close | java/src/si/tui/Terminal.java:51-80 | The object always ends uninitialized. When it was not initialized, nothing is written or run. Otherwise the exit sequences are written, then `stty <saved>` is attempted, then the fallback as written (an attempt to start a plain `stty`) exactly when that run failed. No failure escapes. |
| Tui.CloseEventsOrder | java/src/si/tui/Terminal.java:56-77 | What `close` does has a fixed order: the four exit sequences, then `stty` with the saved settings as its only argument, then a plain `stty` exactly when the primary restore failed. Nothing else happens. |
| Tui.CloseEvents | java/src/si/tui/Terminal.java:56-77 | `close` on an initialized object begins with the four exit sequences, and everything after them is an attempted process run. |
| Tui.FallbackAsWrittenLosesSettings | java/src/si/tui/Terminal.java:64-77 | Once the primary restore has failed, nothing `close` does afterwards hands the saved settings to `stty`, as an argument or on its input. |
| Tui.FallbackDeliversSettings | java/src/si/tui/Terminal.java:65-73 | The intended fallback starts a plain `stty` and then delivers the saved settings on its input. |
| Tui.SessionRestoresDisplay | java/src/si/tui/Terminal.java:13-80 | The escape sequences a whole session writes are the entry ones followed by the exit ones, and they leave a normal terminal's display modes normal. |
| Tui.SetupWritesNothing | java/src/si/tui/Terminal.java:14-20 | The three `stty` runs of a construction write no escape sequence. |
| Tui.CloseEventsWhenRestored | java/src/si/tui/Terminal.java:62-77 | When the primary restore succeeds, no fallback is run. |
| Tui.CloseTwice | java/src/si/tui/Terminal.java:51-54 | `close` is idempotent: a second call writes and runs nothing, whatever its `stty` would have done. |
| Tui.Session | java/src/si/tui/Terminal.java:13-80 | Take a construction whose mode query prints one trimmed line, followed by a `close` whose restore succeeds. The last command run is `stty` with exactly that line. The escape sequences are the entry ones followed by the exit ones. |
| Tui.Command | java/src/si/tui/Terminal.java:84-86 | An `stty` command line is the program name followed by each argument, in order. |
| Tui.SttyResult | java/src/si/tui/Terminal.java:93-109 | A run succeeds exactly when the process exited with status 0, and then yields its collected output. A non-zero status raises with that status and the output, and a run that could not be started, read or waited for raises `SttyUnavailable`. |
| Tui.SizeTokens | java/src/si/tui/Terminal.java:34-36 | When the trimmed report splits into exactly two pieces, both are non-empty words with no whitespace. |
| Tui.SizeEffect | java/src/si/tui/Terminal.java:33-40 | `updateSize` ends with the query's own error exactly when the query failed. A number error always names a non-empty token that contains no whitespace. |
| Tui.HeightAfter | java/src/si/tui/Terminal.java:36-38 | The height is the first word's value whenever that word parsed, even if the width then fails, and it changes in no other case. |
| Tui.WidthAfter | java/src/si/tui/Terminal.java:36-38 | The width is the second word's value when both words parse, and it changes in no other case. |
| Tui.FallbackAsWritten | java/src/si/tui/Terminal.java:64-77 | The fallback as written writes no escape sequence. It is one attempted plain `stty`, and it never delivers the saved settings, as an argument or on its input. |
| Tui.Fallback | java/src/si/tui/Terminal.java:65-73 | The intended fallback writes no escape sequence and delivers the saved settings. |
| Tui.SavedModeRoundTrip | java/src/si/tui/Terminal.java:14 | The settings `stty -g` prints on one line are saved unchanged by collect-then-trim, so `close` hands them back to `stty` verbatim. |
| Tui.SizeTokensOfLine | java/src/si/tui/Terminal.java:34-36 | A one-line report of space-separated words yields a pair exactly when it has two words, first word first, and otherwise nothing. |
| Tui.SizeEffectOfReport | java/src/si/tui/Terminal.java:34-38 | The report `<rows> <cols>` sets the height to rows and the width to cols, for every pair of `int` values. |
| Tui.SizeEffectOfWrongCount | java/src/si/tui/Terminal.java:36-39 | A report of any number of words other than two changes neither dimension and raises nothing. |
| Tui.SizeEffectOfBadWidth | java/src/si/tui/Terminal.java:37-38 | Two words whose second is not a number: the height is taken from the first word, then the width fails with `NumberFormatException` for that word. |
| Tui.SizeExampleReport | java/src/si/tui/Terminal.java:33-40 | `"24 80"` sets height 24 and width 80. |
| Tui.SizeExampleOneWord | java/src/si/tui/Terminal.java:36-39 | `"garbage"` and `"24"` leave the dimensions as they were. |
| Tui.SizeExampleBadWidth | java/src/si/tui/Terminal.java:37-38 | `"24 abc"` sets the height to 24, then raises for `"abc"`. |
| Control.Collect | java/src/si/tui/Terminal.java:96-97 | The collected output of at least one line ends in a newline. |
| Control.Emits | java/src/si/tui/Terminal.java:22-25 | Writing a list of sequences writes each one, in order and nothing else. |
| Control.EmitsOfEntry | java/src/si/tui/Terminal.java:22-25 | The constructor writes alternate screen on, cursor hide, mouse on and clear screen, in that order. |
| Control.EmitsOfExit | java/src/si/tui/Terminal.java:56-59 | `close` writes attributes reset, mouse off, cursor show and alternate screen off, in that order. |
| Escapes.ExitMirrorsEntry | java/src/si/tui/Terminal.java:22-25 | Entry ends with the screen clear and exit starts with the attribute reset. The three mode switches of exit are those of entry in reverse order, each switched the other way. |
| Escapes.Undo | java/src/si/tui/Terminal.java:56-59 | Each mode switch has an opposite, which is a different mode switch. |
| Control.Written | java/src/si/tui/Terminal.java:22-25 | The escape sequences among a list of events are at most as many as the events. |
| Control.WrittenAppend | java/src/si/tui/Terminal.java:22-25 | The escape sequences of two event lists in turn are those of the first, then those of the second. |
| Control.WrittenOfEmits | java/src/si/tui/Terminal.java:22-25 | Round trip: the escape sequences among the events of writing a list are that list. |
| Control.NoEscapeWritesNothing | java/src/si/tui/Terminal.java:13-21 | Events contain no escape exactly when they write no escape sequence. |
| Escapes.PlayAppend | java/src/si/tui/Terminal.java:22-25 | Writing two lists of sequences one after the other has the effect of writing their concatenation. |
| Escapes.EntryStartsSession | java/src/si/tui/Terminal.java:22-25 | From any display modes, the entry sequences leave the alternate screen on, the cursor hidden and mouse reporting on. |
| Escapes.ExitRestoresNormal | java/src/si/tui/Terminal.java:56-59 | From any display modes, the exit sequences leave the terminal in normal modes. |
| Escapes.SessionIsReversible | java/src/si/tui/Terminal.java:22-59 | Entry, then any sequences at all, then exit, leaves a normal terminal normal. |
| JavaText.TrimStart | java/src/si/tui/Terminal.java:34 | After leading blanks are removed, the result does not start with a blank. |
| JavaText.TrimEnd | java/src/si/tui/Terminal.java:34 | After trailing blanks are removed, the result does not end with a blank. |
| JavaText.TrimStartIsSuffix | java/src/si/tui/Terminal.java:34 | What `TrimStart` drops is a prefix made only of blanks. |
| JavaText.TrimEndIsPrefix | java/src/si/tui/Terminal.java:34 | What `TrimEnd` drops is a suffix made only of blanks. |
| JavaText.Trim | java/src/si/tui/Terminal.java:14 | `trim()` leaves no blank character at either end. |
| JavaText.TrimIsInfix | java/src/si/tui/Terminal.java:14 | The trimmed string is a contiguous piece of the input, and everything removed on each side is blank. |
| JavaText.TrimStartSkipsBlanks | java/src/si/tui/Terminal.java:34 | Leading blank padding does not change what `TrimStart` returns. |
| JavaText.TrimEndSkipsBlanks | java/src/si/tui/Terminal.java:34 | Trailing blank padding does not change what `TrimEnd` returns. |
| JavaText.TrimUnique | java/src/si/tui/Terminal.java:14 | Trimming a string with no blank at either end, padded with any blanks on both sides, gives that string back. |
| JavaText.TokenLength | java/src/si/tui/Terminal.java:35 | The length of the leading run of non-space characters: the run has no space, and it stops at a space or at the end. |
| JavaText.Fields | java/src/si/tui/Terminal.java:35 | The fields are non-empty and contain no whitespace. |
| JavaText.Split | java/src/si/tui/Terminal.java:35 | Every piece after the first is non-empty and contains no whitespace, and the first piece contains no whitespace. |
| JavaText.FieldsSkipSpace | java/src/si/tui/Terminal.java:35 | Leading whitespace does not change the fields. |
| JavaText.TokenLengthOfWord | java/src/si/tui/Terminal.java:35 | A word followed by whitespace or by nothing is exactly the leading run. |
| JavaText.FieldsOfWord | java/src/si/tui/Terminal.java:35 | A word followed by whitespace or by nothing is the first field. |
| JavaText.FieldsOfJoin | java/src/si/tui/Terminal.java:35 | Round trip: the fields of words joined by a whitespace separator are the words. |
| JavaText.JoinIsTrimmed | java/src/si/tui/Terminal.java:34-35 | Words joined by single spaces form a trimmed string, which is empty only when there are no words. |
| JavaText.SplitOfTrimmed | java/src/si/tui/Terminal.java:34-35 | On trimmed text, `split("\\s+")` gives the fields. The one exception is the empty string, which gives a single empty piece. |
| JavaText.DigitChar | java/src/si/tui/Terminal.java:37-38 | The digit character for 0-9 is a digit with that value. |
| JavaText.ParseInt | java/src/si/tui/Terminal.java:37-38 | `parseInt` succeeds exactly when the text is an optional sign followed by one or more decimal digits and the signed value fits in 32 bits. It then returns that value. Otherwise it raises `NumberFormatException` for the text. |
| JavaText.NatToString | java/src/si/tui/Terminal.java:37-38 | The decimal rendering of a natural number is one or more digits, with a leading zero only for zero. |
| JavaText.IntToString | java/src/si/tui/Terminal.java:37-38 | The rendering of an `int` is a non-empty word with no blank character. |
| JavaText.DecimalValueOfNatToString | java/src/si/tui/Terminal.java:37-38 | The value of the rendered digits is the number. |
| JavaText.ParseIntOfIntToString | java/src/si/tui/Terminal.java:37-38 | Round trip: parsing the decimal rendering of any 32-bit `int` gives it back. |

## Left out

- The processes themselves are not modelled. `ProcessBuilder`, redirecting input from `/dev/tty`, merging stderr, and reading the stream are all out. Each run is a `Completion` parameter: an exit status plus output lines.
- Cutting the process output into lines (`reader.lines()`) is not modelled. The lines arrive already cut.
- `System.out.flush()` is not modelled. The trace records what is printed, not when it reaches the terminal.
- The escape sequences' bytes are not modelled. `Escape.java` is not part of this model, so the sequences are named values.
- `Escapes.Apply` is not taken from the source. Its display-mode semantics are read off the sequence names, and the `Escapes` lemmas are stated over that reading.
- The shutdown hook thread and its concurrency with the rest of the program are not modelled. Registration is a `HookRegistered` event; the hook's later run is an ordinary call to `Terminal.Close`.
- The fallback restore's own outcome is not modelled: opening `/dev/tty`, the write that raises, waiting. The source ignores that outcome, and the model records only the attempted start of a plain `stty`.
- The text of exception messages is left out. Errors carry the exit status and the collected output, not the message strings.
- The `Throwable` cause chain is left out.
- JavaText.ParseInt: accepts only ASCII digits, whereas Java's `Integer.parseInt` also accepts other Unicode decimal digits.
- JavaText.IsSpace: the regular-expression class `\s` is taken to be the six ASCII whitespace characters, which is Java's default (non-Unicode) meaning.
- Terminal.Width, Terminal.Height: plain field reads, with no contract beyond their bodies.

## Findings

| source | as written | input that shows it | evidently intended | confidence | as-written member | corrected member |
|---|---|---|---|---|---|---|
| java/src/si/tui/Terminal.java:67-73 | The fallback redirects the child's input from `/dev/tty` (:68), so `p.getOutputStream()` is Java's null output stream. Writing `savedState` to it (:71) raises `IOException`, which :74 swallows. `stty` is started with no argument, never receives the settings, and `waitFor` is never reached. | any non-empty saved setting string, e.g. the one-line output of `stty -g` | the saved settings reach the standard input of the child, as the comment at :65 says; whether `stty` would then act on them is not modelled | high (not executed) | Tui.FallbackAsWrittenLosesSettings | Tui.FallbackDeliversSettings |

`Terminal.Close` keeps the fallback as written (`Tui.FallbackAsWritten`), so that the trace shows what the code does. `Tui.Fallback` is the corrected fallback.
