# watch-rs, modelled in Dafny

watch-rs runs a shell command again and again and shows its latest output.
This project models its core and proves properties of it:

- **The persistent bash session** (`src/models/watcher.rs`), module `Shell`,
  class `Shell.Watcher`. One long-lived bash process gets every command on
  its stdin, then a `printf` of a 100-character end marker. The output reader
  keeps what arrives up to the first occurrence of the marker.
  - Bash is an oracle. For what was written so far and the next command, it
    completes, hangs or exits.
  - The marker is one static value, drawn from a seeded generator whose
    32-bit stream is a constant left unspecified, except that it holds at
    least 100 accepted draws. The model follows rand's `Alphanumeric`
    rejection rule.
- **The watcher thread** (`src/bin/watcher_tui/tui/mod.rs`), module
  `Producer`. It runs the setup commands once and reports them as
  iteration 0. Then it runs the main commands again and again, one numbered
  result per pass, until the close flag is set or the watch duration is
  exceeded. Finally it sends `End` and kills the shell.
  - The channel is the class `Producer.Channel`, an unbounded FIFO queue.
- **The display of results** (`src/bin/watcher_tui/tui/watcher.rs`),
  module `Consumer`. On each tick it takes at most one event and shows it. It
  returns on `End` and raises the shared close flag (`Consumer.CloseFlag`) on
  Ctrl+C.
- **The query editor** (`src/bin/watcher_tui/tui/query.rs`), module
  `Query`. It has two tabs, three modes and a key dispatch. On submit it
  hands back the text areas' lines joined with newlines. It also builds the
  footer line.
- **The stand-alone watcher** (`src/bin/watcher.rs`), module `Standalone`.
  It covers:
  - the conversion of the command-line values to milliseconds, including the
    `u64` overflow of `* 1000`;
  - the optional setup commands;
  - the loop without a display, which stops on an interrupt or once the
    duration is exceeded;
  - the final kill.
- **The first, polling watcher** (`src/bin/main.rs`), module `Legacy`. It
  splits the command on spaces. It runs the command at most once every
  1000 ms (the gap must be strictly larger) and shows the output of the last
  run that finished.

Shared pieces:

- `Text`: the string functions the code relies on: `str::find`,
  `split(' ')`, `join` and `lines`.
- `Schedule`: the stop test that both watch loops share.
- `Keys`: key events.
- `Wrappers`: `Option` and `Result`.

The environment is given as data, one entry per step:

- Time, the close flag and interrupts are a sequence of `Observation`s, one
  per pass of a watch loop.
- The other thread, drawing and terminal polling are a sequence of ticks.
- A spawned process is a `ProcessRun`.

Each loop that the source runs in place is a `method` with a `while` loop.
Its `ensures` equates the result with a recursive specification function.
The lemmas about that function carry the properties.

## Model

| member | source | states |
|---|---|---|
| Shell.SampleAlphanumeric | src/models/watcher.rs:12-13 | taking `n` alphanumeric samples from a stream of 32-bit draws gives min(n, accepted draws) characters, each an ASCII letter or digit |
| Shell.Accepted | src/models/watcher.rs:12-13 | `Alphanumeric` accepts at most every draw, and every draw when none has 62 or 63 in its top six bits |
| Shell.MarkerShape | src/models/watcher.rs:11-14 | given at least 100 accepted draws, the marker drawn from them is 100 alphanumeric characters |
| Shell.CmdEndMarkerShape | src/models/watcher.rs:11-14 | the one static marker every watcher uses is 100 alphanumeric characters, so not empty: the seeded stream is an unbounded stream, modelled by draws holding at least 100 accepted ones |
| Shell.MarkerPrintsLiterally | src/models/watcher.rs:55 | a marker of letters and digits has no `%`, `\` or quote, so `printf '<marker>'` prints it unchanged |
| Shell.Exec | src/models/watcher.rs:51-60 | a dead shell fails with a broken pipe; otherwise stdin grows by the command and the printf line. On success, the old buffer plus what bash printed equals capture + marker + leftover, and the marker does not occur before the capture's end. On failure, everything printed stays buffered, with a timeout for a hang and end-of-stream for an exit |
| Shell.KillSession | src/models/watcher.rs:62-64 | kill succeeds exactly when the process can be killed, after which it is dead; a failure is passed on and changes nothing |
| Shell.CaptureHasNoMarker | src/models/watcher.rs:57-59 | a successful capture never contains the marker |
| Shell.ExecFailsWithoutMarker | src/models/watcher.rs:57-58 | on a live shell, a command fails exactly when the marker is nowhere in the unread output plus what bash printed |
| Shell.CompletedCommandSucceeds | src/models/watcher.rs:51-60 | a command that completes on a live shell always yields a capture and leaves the shell alive |
| Shell.CapturesOwnOutput | src/models/watcher.rs:51-60 | on an empty buffer, a completed command whose output does not contain an unbordered marker is captured exactly, with nothing left over |
| Shell.ConsecutiveCaptures | src/models/watcher.rs:51-60 | two consecutive commands each capture only their own output, and the buffer ends empty |
| Shell.HungCommandTimesOut | src/models/watcher.rs:57-58 | a hanging command whose partial output holds no marker times out, and its output stays buffered |
| Shell.Watcher.Spawned | src/models/watcher.rs:28-39 | a freshly spawned shell has written nothing, buffered nothing and is alive |
| Shell.Watcher.New | src/models/watcher.rs:11-49 | a spawn failure is returned. Otherwise the result is the outcome of running the init commands: on success, a fresh watcher in the state they left, with the given timeout, the inherited environment plus `LC_ALL=C`, and the one static `CMD_END_MARKER` that every watcher shares, which is a well-formed marker |
| Shell.Watcher.ExecCmdAndFetchOutput | src/models/watcher.rs:51-60 | updates the session in place exactly as `Exec` and returns its result |
| Shell.Watcher.Kill | src/models/watcher.rs:62-64 | updates the session in place exactly as `KillSession` and returns its outcome |
| Text.ShiftOccurrence | src/models/watcher.rs:57-58 | occurrences in `s[1..]` are those in `s` shifted by one |
| Text.FirstOccurrence | src/models/watcher.rs:57-58 | the found index is an occurrence with none before it, and no index means the needle does not occur |
| Text.ReadUntil | src/models/watcher.rs:57-58 | the reader finds nothing exactly when the marker is absent; otherwise buffer == capture + marker + rest, and the marker does not start inside the capture |
| Text.CaptureExcludesNeedle | src/models/watcher.rs:57-58 | the text read up to the needle never contains the needle |
| Text.FirstOccurrenceStable | src/models/watcher.rs:57-58 | once found, the first occurrence stays first however much more output arrives |
| Text.ReadsOwnOutput | src/models/watcher.rs:54-58 | reading `out + m` up to an unbordered `m` that `out` lacks yields exactly `out` and consumes everything |
| Text.BorderedMarkerLeaks | src/models/watcher.rs:57-58 | with a self-overlapping marker the capture stops short and leaves output behind (`aX` + `aXa` reads as `""`, leaving `Xa`) |
| Text.Split | src/bin/main.rs:70 | `split` always yields at least one piece |
| Text.SplitCount | src/bin/main.rs:70 | splitting gives one more piece than there are separators |
| Text.SplitPiecesFree | src/bin/main.rs:70 | no piece holds the separator |
| Text.JoinSplit | src/bin/main.rs:70 | joining the pieces with the separator gives the string back |
| Text.SplitCons | src/bin/main.rs:70 | how splitting proceeds past one leading character |
| Text.SplitAfterWord | src/bin/main.rs:70 | a separator-free word then the separator: the word is the first piece, and splitting resumes after it |
| Text.JoinCons | src/bin/watcher_tui/tui/query.rs:132-133 | joining pieces whose first piece is non-empty starts with that piece's first character |
| Text.SplitJoin | src/bin/watcher_tui/tui/query.rs:132-133 | splitting the join of separator-free pieces gives the pieces back |
| Text.SplitOfFree | src/bin/main.rs:70 | a string without the separator splits into itself alone |
| Text.JoinSnoc | src/bin/watcher_tui/tui/query.rs:132-133 | joining one more piece appends the separator and that piece |
| Text.JoinLines | src/bin/watcher_tui/tui/query.rs:101-102 | for text without carriage returns, joining `lines()` with newlines gives the text back less one final newline |
| Schedule.NoStopBeforeCons | src/bin/watcher_tui/tui/mod.rs:74-83 | a first pass that did not ask to stop extends a stretch of such passes after it |
| Query.Index | src/bin/watcher_tui/tui/query.rs:17-25 | `as usize` is inverted by `from_repr` and fits a `usize` |
| Query.Previous | src/bin/watcher_tui/tui/query.rs:28-32 | `previous` moves one index left, staying put at index 0 |
| Query.Next | src/bin/watcher_tui/tui/query.rs:35-39 | `next` moves one index right, staying put on the last tab |
| Query.TabMoves | src/bin/watcher_tui/tui/query.rs:27-40 | Setup is left of Main, the ends are fixed points, and moving twice the same way ends where once does |
| Query.Dispatch | src/bin/watcher_tui/tui/query.rs:120-182 | Ctrl+C and only Ctrl+C quits in every mode. Enter submits only in SUBMIT. Enter in NORMAL goes to SUBMIT, `i` outside EDITOR goes to EDITOR and Esc in EDITOR goes back to NORMAL, and these are the only mode changes. The arrows move the tab only in NORMAL. In EDITOR every other key goes to the text area. Unmatched keys do nothing |
| Query.AreaLines | src/bin/watcher_tui/tui/query.rs:101-102 | a text area always holds at least one line |
| Query.AreaRoundTrip | src/bin/watcher_tui/tui/query.rs:101-102 | submitting an unedited area gives its text back, less one final newline |
| Query.ApplyFrames | src/bin/watcher_tui/tui/query.rs:120-182 | only NORMAL arrows change the tab, only EDITOR changes the active tab's text and no other, SUBMIT is entered only from NORMAL by Enter, EDITOR only by `i`, and a key that returns changes nothing |
| Query.UneditedSubmitsOriginal | src/bin/watcher_tui/tui/query.rs:96-191 | without entering EDITOR, what is submitted is the opening texts, each less one final newline |
| Query.UneditedRun | src/bin/watcher_tui/tui/query.rs:96-191 | without `i` the mode never becomes EDITOR, the areas never change, and a submit hands them back joined |
| Query.CtrlCQuits | src/bin/watcher_tui/tui/query.rs:121-126 | Ctrl+C returns at once with nothing submitted, whatever the mode |
| Query.RunQueryEnds | src/bin/watcher_tui/tui/query.rs:96-191 | a submit happens in SUBMIT mode after a plain Enter and hands back the areas joined by newlines; a cancel comes from a Ctrl+C |
| Query.FooterHints | src/bin/watcher_tui/tui/query.rs:197-212 | NORMAL shows three hints, EDITOR two, SUBMIT one, and the last is always the quit hint |
| Query.Footer | src/bin/watcher_tui/tui/query.rs:197-212 | the footer always ends with "Press Ctrl+C to quit" |
| Query.JoinSnocTail | src/bin/watcher_tui/tui/query.rs:211 | joining with one more piece ends in that piece |
| Query.QueryTui.New | src/bin/watcher_tui/tui/query.rs:85-94 | NORMAL mode, main tab, the given command (or nothing) as main text, and no setup text |
| Query.QueryTui.RunApp | src/bin/watcher_tui/tui/query.rs:96-191 | returns the editor's exit, leaves mode and tab where the run left them, and stores the submitted texts |
| Producer.Channel.constructor | src/bin/watcher_tui/main.rs:117 | a new channel is empty |
| Producer.Channel.Send | src/bin/watcher_tui/tui/mod.rs:65-72 | an unbounded channel accepts every event, at the back |
| Producer.Channel.TryRecv | src/bin/watcher_tui/tui/watcher.rs:62 | the oldest event is removed and returned, or nothing from an empty channel |
| Producer.Passes | src/bin/watcher_tui/tui/mod.rs:56-85 | every pass starts by running the command |
| Producer.WatcherThread | src/bin/watcher_tui/tui/mod.rs:39-91 | the thread starts by running the setup commands |
| Producer.EventsAppend | src/bin/watcher_tui/tui/mod.rs:45-89 | the events sent by two stretches of steps are those of the first, then those of the second |
| Producer.IterationsAppend | src/bin/watcher_tui/tui/mod.rs:45-89 | likewise for the iteration numbers |
| Producer.PassesEventsSent | src/bin/watcher_tui/tui/mod.rs:56-89 | the recorded events are exactly the `Sent` steps, in order |
| Producer.AfterPassEventsSent | src/bin/watcher_tui/tui/mod.rs:56-89 | the same for the rest of a pass |
| Producer.PassesNumbered | src/bin/watcher_tui/tui/mod.rs:53-72 | passes are numbered consecutively from the first, with no gaps or repeats |
| Producer.AfterPassNumbered | src/bin/watcher_tui/tui/mod.rs:53-72 | the same for the rest of a pass |
| Producer.PassesEnd | src/bin/watcher_tui/tui/mod.rs:56-90 | the loop sends results and then `End` only as its last event, exactly when left normally, followed only by the kill. A panicking command ends it without `End` or kill |
| Producer.AfterPassEnd | src/bin/watcher_tui/tui/mod.rs:56-90 | the same for the rest of a pass |
| Producer.PassesStopReason | src/bin/watcher_tui/tui/mod.rs:74-83 | after `n` results the loop stops normally on the first observation asking for it. It panics or keeps running only if no observation it read asked to stop |
| Producer.AfterPassStopReason | src/bin/watcher_tui/tui/mod.rs:74-83 | the same for the rest of a pass |
| Producer.PassesSleep | src/bin/watcher_tui/tui/mod.rs:84 | the thread sleeps for exactly the interval, only after a sent result and before the next pass |
| Producer.AfterPassSleep | src/bin/watcher_tui/tui/mod.rs:84 | the same for the rest of a pass |
| Producer.WatcherThreadSends | src/bin/watcher_tui/tui/mod.rs:39-91 | nothing is sent exactly when setup fails, and then the thread panics without a kill. Otherwise the setup output comes first as iteration 0, then only results; `End` comes exactly on a normal exit, followed by the kill |
| Producer.WatcherThreadNumbering | src/bin/watcher_tui/tui/mod.rs:53-83 | results are numbered 1, 2, 3, … and the thread obeys the stop rule |
| Producer.RunWatcherThread | src/bin/watcher_tui/tui/mod.rs:31-92 | the steps, the end and the shell are those of `WatcherThread`, and the channel gains exactly its events |
| Producer.RunPasses | src/bin/watcher_tui/tui/mod.rs:52-85 | the loop from pass 1 matches `Passes`, with its events appended to the channel |
| Producer.RunPass | src/bin/watcher_tui/tui/mod.rs:57-84 | one pass either ends the run as the specification does or leaves the rest of it to the next pass |
| Consumer.CloseFlag.constructor | src/bin/watcher_tui/main.rs:118 | the flag starts lowered |
| Consumer.CloseFlag.Store | src/bin/watcher_tui/tui/watcher.rs:78 | `store` sets the flag to the given value |
| Consumer.TickStep | src/bin/watcher_tui/tui/watcher.rs:59-85 | one pass of the loop uses one tick and takes at most one event |
| Consumer.RunTicks | src/bin/watcher_tui/tui/watcher.rs:59-86 | `run_app` takes at most one event per tick used; it is still running only after using every tick, and otherwise returned on a tick it used |
| Consumer.TickTakesOldest | src/bin/watcher_tui/tui/watcher.rs:62-68 | a pass takes at most one event, the oldest |
| Consumer.TickShows | src/bin/watcher_tui/tui/watcher.rs:62-68 | the event taken replaces what is shown; an empty channel leaves the display as it was |
| Consumer.TickStops | src/bin/watcher_tui/tui/watcher.rs:60-81 | a pass returns normally exactly when it takes `End`, and with an error exactly when drawing failed or polling failed without `End` |
| Consumer.TickCloseFlag | src/bin/watcher_tui/tui/watcher.rs:74-81 | only a Ctrl+C polled on a pass that did not return raises the flag, and nothing lowers it |
| Consumer.ArrivalsAppend | src/bin/watcher_tui/tui/watcher.rs:62 | the arrivals of two stretches of ticks are those of the first, then the second |
| Consumer.RunTicksFifo | src/bin/watcher_tui/tui/watcher.rs:59-86 | first in, first out: events taken, then those still waiting, equal those waiting plus those that arrived; at most one per tick |
| Consumer.RunTicksEnd | src/bin/watcher_tui/tui/watcher.rs:62-67 | only `End` makes `run_app` return `Ok`, and it is the last event taken |
| Consumer.RunTicksFailure | src/bin/watcher_tui/tui/watcher.rs:60-81 | an error return comes from the last tick's drawing or polling. Otherwise the display runs through every tick, Ctrl+C included |
| Consumer.RunTicksShows | src/bin/watcher_tui/tui/watcher.rs:62-68 | the display shows the result of the last event it took |
| Consumer.RunTicksCloseFlag | src/bin/watcher_tui/tui/watcher.rs:74-81 | the flag only rises, and only on Ctrl+C. Over ticks that all ran through, it rose exactly when one polled Ctrl+C |
| Consumer.ThreadSendsEndLast | src/bin/watcher_tui/tui/mod.rs:87-89 | the watcher thread sends `End` at most once, and last |
| Consumer.ArrivalsPrefix | src/bin/watcher_tui/tui/watcher.rs:62 | arrivals split at any tick |
| Consumer.DisplayTakesEverything | src/bin/watcher_tui/tui/watcher.rs:59-86 | when `run_app` returns `Ok`, it has taken every event sent, in order, nothing is left, and it shows what the last one carried |
| Consumer.EndOnlyLastPrefix | src/bin/watcher_tui/tui/mod.rs:87-89 | what has arrived of the thread's events also has `End` only last, and holds `End` only once everything has arrived |
| Consumer.ThreadThenDisplay | src/bin/watcher_tui/tui/watcher.rs:59-86 | fed by the watcher thread, a display that returns `Ok` has taken exactly every event the thread sent, in order, and shows the last result the thread reported |
| Consumer.WatcherTui.New | src/bin/watcher_tui/tui/watcher.rs:37-49 | keeps the receiver and the flag, and shows iteration 0 with no output |
| Consumer.WatcherTui.RunTick | src/bin/watcher_tui/tui/watcher.rs:59-85 | one pass changes display, channel and flag as `TickStep` says |
| Consumer.WatcherTui.RunApp | src/bin/watcher_tui/tui/watcher.rs:51-87 | the display, channel and flag end as `RunTicks` says, which returns with the same stop |
| Standalone.SecondsToMillis | src/bin/watcher.rs:113-117 | `t * 1000` succeeds exactly when it fits a `u64`, and then is the same span in whole milliseconds |
| Standalone.CommandTimeoutMs | src/bin/watcher.rs:113-114 | no timeout gives 30000 ms; a given one is converted, or the overflow panics |
| Standalone.WatchDurationMs | src/bin/watcher.rs:117 | no duration means unbounded; a given one is converted, or the overflow panics |
| Standalone.Configure | src/bin/watcher.rs:102-117 | setup text exactly with `--has-setup`; the command from `--command`, else from the editor; both conversions, failing if either overflows |
| Standalone.MainResult | src/bin/watcher.rs:151-153 | `main` returns `Ok` exactly when the loop stopped and the kill worked |
| Standalone.Loop | src/bin/watcher.rs:130-149 | every pass begins by running the command |
| Standalone.Main | src/bin/watcher.rs:122-153 | unless the setup fails, the command runs at least once |
| Standalone.LoopShape | src/bin/watcher.rs:130-151 | the loop is passes of (run, sleep the interval), then a final run, then a kill exactly when left normally |
| Standalone.AfterRunShape | src/bin/watcher.rs:130-151 | the same for the rest of a pass |
| Standalone.LoopStopReason | src/bin/watcher.rs:136-147 | after `n` runs it stops on the first observation asking for it, with the kill's result. A failed command or unfinished run means no observation read asked |
| Standalone.AfterRunStopReason | src/bin/watcher.rs:136-147 | the same for the rest of a pass |
| Standalone.MainRunsSetupFirst | src/bin/watcher.rs:122-125 | setup commands run once, first, only when given; a failing setup returns its error before the loop |
| Standalone.MainLoopsAfterSetup | src/bin/watcher.rs:122-151 | after a successful (or no) setup, `main` is the setup followed by the loop's shape |
| Standalone.MainStopReason | src/bin/watcher.rs:122-151 | after a successful (or no) setup, `main` stops for the loop's reasons |
| Standalone.RunMain | src/bin/watcher.rs:122-151 | actions, passes, end and shell are those of `Main` |
| Standalone.RunLoop | src/bin/watcher.rs:130-151 | actions, passes, end and shell are those of `Loop` |
| Legacy.MainCommandArg | src/bin/main.rs:27-32 | fewer than two arguments panic; otherwise the command is the first argument |
| Legacy.CommandWordsShape | src/bin/main.rs:70 | the pieces number one more than the spaces, none holds a space, and joined with spaces they give the command back |
| Legacy.DoubleSpaceGivesEmptyWord | src/bin/main.rs:70 | two spaces in a row put an empty argument between the words |
| Legacy.Refresh | src/bin/main.rs:102-138 | a clock behind the last refresh panics. Within 1000 ms nothing changes. After that the refresh time moves to now and a failed spawn panics. The content becomes the output when `communicate` and `wait` succeed, and stays as it was otherwise. An I/O error is returned exactly when `communicate` failed, or when the log write failed after an update |
| Legacy.LegacyStep | src/bin/main.rs:81-98 | a pass runs at most one refresh, and only more than 1000 ms after the last |
| Legacy.RunLegacy | src/bin/main.rs:80-100 | `run_app` never uses more passes than it is given |
| Legacy.RunLegacyUses | src/bin/main.rs:80-100 | `run_app` runs the command at most once a pass; it is still watching only after using every pass, and otherwise ended on a pass it used |
| Legacy.ThrottledCons | src/bin/main.rs:108-112 | a refresh more than 1000 ms after `since`, followed by throttled refreshes, is throttled from `since` |
| Legacy.RefreshesThrottled | src/bin/main.rs:80-112 | the command runs at most once a second: refresh times are strictly more than 1000 ms apart, and the last is the one kept |
| Legacy.StepContent | src/bin/main.rs:81-127 | one pass replaces the content exactly when it draws, is more than 1000 ms past the last refresh, and the command spawns, is read and waited for; the new content is that output |
| Legacy.ShowsLastFinishedRun | src/bin/main.rs:80-127 | after `run_app`, the display shows the output of the last pass whose run finished (ran past the throttle, spawned, was read and waited for), with no later pass finishing a run; if no pass finished one, it shows the starting content |
| Legacy.QuitsOnCtrlC | src/bin/main.rs:85-90 | `run_app` returns `Ok` only on a Ctrl+C, on the last pass used |
| Legacy.LegacyWatcher.New | src/bin/main.rs:68-78 | the command split on spaces, nothing shown, last refresh "now" |
| Legacy.LegacyWatcher.RunCommand | src/bin/main.rs:102-138 | updates content and refresh time in place and returns as `Refresh` |
| Legacy.LegacyWatcher.RunApp | src/bin/main.rs:80-100 | the display ends as `RunLegacy` says, with the same end and refresh times |

## Left out

- Threads are not modelled as threads. The channel is a queue, the other thread's sends arrive through ticks, and the close flag is read through observations, so interleavings beyond that are not modelled.
- Drawing is left out: `draw_ui`, the widgets, colours, layout and tab titles. Only the footer's text is modelled, and a failed `terminal.draw` is a flag on the tick.
- The text area widget's editing (`TextArea::input`) is a given function from lines and key to lines.
- Crossterm key events carry a kind and a state that the model drops. Mouse, resize and paste events are one `OtherEvent`, and the mouse arms at src/bin/main.rs:91-97 do nothing.
- Timing is left out: `TICK_RATE`, `last_tick` and the poll timeouts. Elapsed time is observed exactly, per pass.
- The signal handler thread of src/bin/watcher.rs is left out. An interrupt reaches the loop as an observation.
- Sleeping is recorded as a step, not waited.
- The `--interval` float (src/bin/watcher.rs:116) is taken as a whole number of milliseconds.
- Command-line parsing (clap) is left out. `Args` holds the values already parsed.
- The `vim` input of `query_and_fetch_file_input` is a given text, so its I/O errors are left out. So is the `unwrap` panic at src/bin/watcher.rs:111.
- Logging is left out: `init`, log4rs, the `trace!`/`debug!` lines and the log file of src/bin/main.rs, including the `unwrap` on its creation. The log write is a flag of `ProcessRun`.
- `Standalone.RunMain` starts after `Watcher::new` (src/bin/watcher.rs:119), with the watcher already spawned. `Shell.Watcher.New` models that step.
- The ChaCha stream behind `StdRng::seed_from_u64(5)` is one constant whose value is left unspecified beyond holding at least 100 accepted draws, so the concrete marker is not computed.
- `Shell.CapturesOwnOutput`: holds only for an unbordered marker, whether or not the drawn marker is one. `Text.BorderedMarkerLeaks` shows what goes wrong otherwise.
- `Shell.Exec`: a hang is modelled as the reader's timeout, without its duration.
- The model pushes `LC_ALL=C` onto the inherited environment and does not say which of two `LC_ALL` entries bash keeps.
- `send`/`try_send` on a disconnected receiver would panic. The receiver lives as long as the thread in this model, so that case does not arise.
- `u64` `* 1000` (src/bin/watcher.rs:114,117) and the `u128` subtraction (src/bin/main.rs:108) are modelled as the panics of a debug build, not the wrap-around of a release build.
- `Legacy.Refresh`: a `communicate` error is an I/O error. When `wait` succeeds but stdout was not captured, the `out.unwrap()` panic at src/bin/main.rs:127 is modelled as that I/O error.
- `src/bin/watcher_tui/main.rs`, `src/bin/watcher_tui/envs.rs`, `src/bin/try.rs` and `src/utils/mod.rs` are not part of this model, apart from where the channel and close flag are created.
