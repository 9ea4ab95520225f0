/**
 * The first, polling watcher (src/bin/main.rs): it splits the command given
 * as the first argument on spaces, and on every pass of its display loop
 * runs it as a fresh process, but no more often than once every second
 * (strictly more than 1000 ms apart), showing the output of the last run
 * that finished.
 *
 * Clocks, processes and the terminal are the environment: each pass says
 * what the clock read, how running the command went, and what polling gave.
 */
module Legacy {
  import opened Wrappers
  import opened Keys
  import opened Text

  /** `main`'s guard: the command is the first argument; fewer than two arguments panic. */
  function MainCommandArg(args: seq<string>): (r: Option<string>)
    ensures r.None? <==> |args| < 2
    ensures r.Some? ==> r.value == args[1]
  {
    if |args| < 2 then None else Some(args[1])
  }

  /** The command as the program runs it: split on every single space. */
  function CommandWords(command: string): seq<string> {
    Split(command, ' ')
  }

  /**
   * The pieces of the command: one more than there are spaces, none holding
   * a space, and joined with spaces they give the command back.
   */
  lemma CommandWordsShape(command: string)
    ensures |CommandWords(command)| == Count(command, ' ') + 1
    ensures forall p :: p in CommandWords(command) ==> ' ' !in p
    ensures Join(CommandWords(command), " ") == command
  {
    SplitCount(command, ' ');
    SplitPiecesFree(command, ' ', ' ');
    JoinSplit(command, ' ');
  }

  /** Two spaces in a row give an empty piece between them. */
  lemma DoubleSpaceGivesEmptyWord(word: string, rest: string)
    requires ' ' !in word
    ensures CommandWords(word + "  " + rest) == [word, ""] + CommandWords(rest)
  {
    var x := [' '] + rest;
    assert word + "  " + rest == word + [' '] + x;
    SplitAfterWord(word, x, ' ');
    SplitCons(' ', rest, ' ');
    assert [word] + ([""] + Split(rest, ' ')) == [word, ""] + Split(rest, ' ');
  }

  /** A refresh needs strictly more than this many milliseconds since the last one. */
  const REFRESH_INTERVAL_MS: nat := 1000

  /** How one attempt to run the command goes. */
  datatype ProcessRun = ProcessRun(
    spawns: bool,           // `Popen::create` worked (otherwise `unwrap` panics)
    output: Option<string>, // what `communicate` captured on stdout, or its error
    waitSucceeds: bool,     // `wait` returned `Ok`
    logWritten: bool)       // the log line was written

  datatype Panic = ClockRegressed | SpawnFailed

  /** What `run_command` returns: `Ok(())`, an I/O error, or a panic. */
  datatype CommandOutcome = Done | IoError | Panicked(panic: Panic)

  /** The fields `run_command` reads and writes. */
  datatype WatchView = WatchView(content: string, lastRefreshMs: nat)

  /**
   * `run_command` at clock reading `nowMs`: nothing within 1000 ms of the last
   * refresh; otherwise the refresh time moves to `nowMs` before the process
   * is spawned, and the content is replaced only when `wait` succeeds. The
   * `u128` subtraction panics when the clock went backwards.
   */
  function Refresh(d: WatchView, nowMs: nat, run: ProcessRun): (r: (WatchView, CommandOutcome))
    ensures r.1 == Panicked(ClockRegressed) <==> nowMs < d.lastRefreshMs
    ensures r.0.lastRefreshMs == if nowMs > d.lastRefreshMs + REFRESH_INTERVAL_MS then nowMs else d.lastRefreshMs
    ensures nowMs <= d.lastRefreshMs + REFRESH_INTERVAL_MS ==> r.0 == d
    ensures d.lastRefreshMs <= nowMs <= d.lastRefreshMs + REFRESH_INTERVAL_MS ==> r.1 == Done
    ensures r.0.content != d.content ==> run.output.Some? && r.0.content == run.output.value
    ensures nowMs > d.lastRefreshMs + REFRESH_INTERVAL_MS && run.spawns && run.output.Some? && run.waitSucceeds ==>
      r.0.content == run.output.value
    ensures r.1 == Panicked(SpawnFailed) <==> nowMs > d.lastRefreshMs + REFRESH_INTERVAL_MS && !run.spawns
    ensures nowMs > d.lastRefreshMs + REFRESH_INTERVAL_MS && run.spawns && !(run.output.Some? && run.waitSucceeds) ==>
      r.0.content == d.content
    ensures r.1 == IoError <==>
      && nowMs > d.lastRefreshMs + REFRESH_INTERVAL_MS && run.spawns
      && (run.output.None? || (run.waitSucceeds && !run.logWritten))
  {
    if nowMs < d.lastRefreshMs then (d, Panicked(ClockRegressed))
    else if nowMs - d.lastRefreshMs <= REFRESH_INTERVAL_MS then (d, Done)
    else
      var refreshing := d.(lastRefreshMs := nowMs);
      if !run.spawns then (refreshing, Panicked(SpawnFailed))
      else if run.output.None? then (refreshing, IoError)
      else if !run.waitSucceeds then (refreshing, Done)
      else (refreshing.(content := run.output.value), if run.logWritten then Done else IoError)
  }

  // ---------------------------------------------------------------------------
  // The display loop

  /** One pass of `run_app`: drawing, the clock, the process, and the poll. */
  datatype LegacyTick = LegacyTick(drawOk: bool, nowMs: nat, process: ProcessRun, poll: Poll)

  /** How `run_app` ended: Ctrl+C (`Ok`), an I/O error, a panic, or not yet. */
  datatype LegacyEnd = Quit | Failed | Crashed(panic: Panic) | Watching

  /** Some passes: the display after them, the refresh times in order, the end, and the passes used. */
  datatype LegacyRun = LegacyRun(display: WatchView, refreshes: seq<nat>, end: LegacyEnd, used: nat)

  /** Lines 81-98, once. */
  function LegacyStep(d: WatchView, t: LegacyTick): (r: LegacyRun)
    ensures r.used == 1
    ensures || (r.refreshes == [] && r.display.lastRefreshMs == d.lastRefreshMs)
            || (r.refreshes == [t.nowMs] && r.display.lastRefreshMs == t.nowMs
                && t.nowMs > d.lastRefreshMs + REFRESH_INTERVAL_MS)
  {
    if !t.drawOk then LegacyRun(d, [], Failed, 1)
    else
      var (d', outcome) := Refresh(d, t.nowMs, t.process);
      var refreshed := if d'.lastRefreshMs != d.lastRefreshMs then [t.nowMs] else [];
      if outcome.Panicked? then LegacyRun(d', refreshed, Crashed(outcome.panic), 1)
      else if outcome == IoError then LegacyRun(d', refreshed, Failed, 1)
      else if t.poll.PollFailed? then LegacyRun(d', refreshed, Failed, 1)
      else if t.poll.Input? && t.poll.event.KeyPress? && IsCtrlC(t.poll.event.key) then
        LegacyRun(d', refreshed, Quit, 1)
      else LegacyRun(d', refreshed, Watching, 1)
  }

  /** `run_app` over a sequence of passes, up to the first that ends it. */
  function RunLegacy(d: WatchView, ticks: seq<LegacyTick>): (r: LegacyRun)
    ensures r.used <= |ticks|
    decreases |ticks|
  {
    if ticks == [] then LegacyRun(d, [], Watching, 0)
    else
      var first := LegacyStep(d, ticks[0]);
      if first.end != Watching then first
      else
        var rest := RunLegacy(first.display, ticks[1..]);
        LegacyRun(rest.display, first.refreshes + rest.refreshes, rest.end, 1 + rest.used)
  }

  /**
   * `run_app` goes on watching only after using every pass it is given,
   * otherwise it ended on a pass, and it runs the command at most once a pass.
   */
  lemma {:induction false} RunLegacyUses(d: WatchView, ticks: seq<LegacyTick>)
    ensures var r := RunLegacy(d, ticks);
      && |r.refreshes| <= r.used
      && (r.end == Watching ==> r.used == |ticks|)
      && (r.end != Watching ==> 1 <= r.used)
    decreases |ticks|
  {
    if ticks != [] {
      var first := LegacyStep(d, ticks[0]);
      if first.end == Watching {
        RunLegacyUses(first.display, ticks[1..]);
      }
    }
  }

  /** Refresh times, each strictly more than 1000 ms after the one before, the first after `since`. */
  predicate Throttled(since: nat, refreshes: seq<nat>) {
    && (refreshes != [] ==> refreshes[0] > since + REFRESH_INTERVAL_MS)
    && forall i :: 0 < i < |refreshes| ==> refreshes[i] > refreshes[i - 1] + REFRESH_INTERVAL_MS
  }

  lemma ThrottledCons(since: nat, t: nat, refreshes: seq<nat>)
    requires t > since + REFRESH_INTERVAL_MS && Throttled(t, refreshes)
    ensures Throttled(since, [t] + refreshes)
  {
    var rs := [t] + refreshes;
    forall i | 0 < i < |rs| ensures rs[i] > rs[i - 1] + REFRESH_INTERVAL_MS {
      if i > 1 {
        assert rs[i] == refreshes[i - 1] && rs[i - 1] == refreshes[i - 2];
      }
    }
  }

  /**
   * The command runs at most once a second: the refresh times are strictly
   * more than 1000 ms apart, and the last of them is the refresh time the
   * display keeps.
   */
  lemma {:induction false} RefreshesThrottled(d: WatchView, ticks: seq<LegacyTick>)
    ensures var r := RunLegacy(d, ticks);
      && Throttled(d.lastRefreshMs, r.refreshes)
      && r.display.lastRefreshMs == if r.refreshes == [] then d.lastRefreshMs else r.refreshes[|r.refreshes| - 1]
    decreases |ticks|, 1
  {
    if ticks != [] && LegacyStep(d, ticks[0]).end == Watching {
      RefreshesThrottledOn(d, ticks);
    }
  }

  lemma {:induction false} RefreshesThrottledOn(d: WatchView, ticks: seq<LegacyTick>)
    requires ticks != [] && LegacyStep(d, ticks[0]).end == Watching
    ensures var r := RunLegacy(d, ticks);
      && Throttled(d.lastRefreshMs, r.refreshes)
      && r.display.lastRefreshMs == if r.refreshes == [] then d.lastRefreshMs else r.refreshes[|r.refreshes| - 1]
    decreases |ticks|, 0
  {
    var first := LegacyStep(d, ticks[0]);
    var rest := RunLegacy(first.display, ticks[1..]);
    RefreshesThrottled(first.display, ticks[1..]);
    if first.refreshes != [] {
      ThrottledCons(d.lastRefreshMs, ticks[0].nowMs, rest.refreshes);
    } else {
      assert first.refreshes + rest.refreshes == rest.refreshes;
    }
  }

  /** A pass that draws and is past the throttle, so `refresh_screen` runs the command. */
  predicate RunsCommand(lastRefreshMs: nat, t: LegacyTick) {
    t.drawOk && t.nowMs > lastRefreshMs + REFRESH_INTERVAL_MS
  }

  /** The command spawned, `communicate` captured its output and `wait` succeeded. */
  predicate Finishes(run: ProcessRun) {
    run.spawns && run.output.Some? && run.waitSucceeds
  }

  /** Pass `i` ran the command and the run finished, judged on the display the earlier passes left. */
  predicate FinishedAt(d: WatchView, ticks: seq<LegacyTick>, i: nat)
    requires i < |ticks|
  {
    RunsCommand(RunLegacy(d, ticks[..i]).display.lastRefreshMs, ticks[i]) && Finishes(ticks[i].process)
  }

  /**
   * `content` is the output of the last run that finished among the first
   * `n` passes, or the starting content when none of them finished.
   */
  predicate ShowsLastFinished(d: WatchView, ticks: seq<LegacyTick>, n: nat, content: string)
    requires n <= |ticks|
  {
    || (exists i :: 0 <= i < n && FinishedAt(d, ticks, i) && ticks[i].process.output.value == content
                    && forall j :: i < j < n ==> !FinishedAt(d, ticks, j))
    || (content == d.content && forall j :: 0 <= j < n ==> !FinishedAt(d, ticks, j))
  }

  /** One pass replaces the content exactly when it runs the command and the run finishes. */
  lemma StepContent(d: WatchView, t: LegacyTick)
    ensures var r := LegacyStep(d, t);
      r.display.content == if RunsCommand(d.lastRefreshMs, t) && Finishes(t.process) then t.process.output.value
                           else d.content
  {
  }

  /** After a first pass that keeps watching, pass `j + 1` sees what pass `j` of the rest sees. */
  lemma FinishedAtShift(d: WatchView, ticks: seq<LegacyTick>, j: nat)
    requires j + 1 < |ticks| && LegacyStep(d, ticks[0]).end == Watching
    ensures FinishedAt(d, ticks, j + 1) == FinishedAt(LegacyStep(d, ticks[0]).display, ticks[1..], j)
  {
    var prefix := ticks[..j + 1];
    assert prefix[0] == ticks[0];
    assert prefix[1..] == ticks[1..][..j];
    assert ticks[1..][j] == ticks[j + 1];
  }

  /** A first pass that keeps watching, followed by the rest: the last finished run carries over. */
  lemma ShowsLastCons(d: WatchView, ticks: seq<LegacyTick>, n: nat, content: string)
    requires 1 <= n <= |ticks| && LegacyStep(d, ticks[0]).end == Watching
    requires ShowsLastFinished(LegacyStep(d, ticks[0]).display, ticks[1..], n - 1, content)
    requires LegacyStep(d, ticks[0]).display.content
             == if FinishedAt(d, ticks, 0) then ticks[0].process.output.value else d.content
    ensures ShowsLastFinished(d, ticks, n, content)
  {
    var d1 := LegacyStep(d, ticks[0]).display;
    forall j | 0 <= j < n - 1
      ensures FinishedAt(d, ticks, j + 1) == FinishedAt(d1, ticks[1..], j)
    {
      FinishedAtShift(d, ticks, j);
    }
    if i :| 0 <= i < n - 1 && FinishedAt(d1, ticks[1..], i) && ticks[1..][i].process.output.value == content
             && forall j :: i < j < n - 1 ==> !FinishedAt(d1, ticks[1..], j) {
      assert ticks[1..][i] == ticks[i + 1];
      assert forall j :: i + 1 < j < n ==> !FinishedAt(d, ticks, j) by {
        forall j | i + 1 < j < n ensures !FinishedAt(d, ticks, j) {
          assert !FinishedAt(d1, ticks[1..], j - 1);
        }
      }
      assert FinishedAt(d, ticks, i + 1);
    } else {
      assert content == d1.content && forall j :: 0 <= j < n - 1 ==> !FinishedAt(d1, ticks[1..], j);
      assert forall j :: 0 < j < n ==> !FinishedAt(d, ticks, j) by {
        forall j | 0 < j < n ensures !FinishedAt(d, ticks, j) {
          assert !FinishedAt(d1, ticks[1..], j - 1);
        }
      }
      if FinishedAt(d, ticks, 0) {
        assert ticks[0].process.output.value == content;
      }
    }
  }

  /**
   * What `run_app` shows is the output of the last run that finished,
   * line 127 being the only place the content changes; before any run
   * finishes it is the starting content.
   */
  lemma {:induction false} ShowsLastFinishedRun(d: WatchView, ticks: seq<LegacyTick>)
    ensures var r := RunLegacy(d, ticks); ShowsLastFinished(d, ticks, r.used, r.display.content)
    decreases |ticks|
  {
    if ticks != [] {
      var first := LegacyStep(d, ticks[0]);
      StepContent(d, ticks[0]);
      assert ticks[..0] == [];
      assert first.display.content
             == if FinishedAt(d, ticks, 0) then ticks[0].process.output.value else d.content;
      if first.end == Watching {
        var rest := RunLegacy(first.display, ticks[1..]);
        ShowsLastFinishedRun(first.display, ticks[1..]);
        ShowsLastCons(d, ticks, 1 + rest.used, rest.display.content);
      } else if !FinishedAt(d, ticks, 0) {
        assert first.display.content == d.content;
      }
    }
  }

  /** Only Ctrl+C ends the loop normally, on the last pass used. */
  lemma {:induction false} QuitsOnCtrlC(d: WatchView, ticks: seq<LegacyTick>)
    ensures var r := RunLegacy(d, ticks);
      r.end == Quit ==> 1 <= r.used && ticks[r.used - 1].poll.Input? && ticks[r.used - 1].poll.event.KeyPress?
                        && IsCtrlC(ticks[r.used - 1].poll.event.key)
    decreases |ticks|
  {
    if ticks != [] {
      var first := LegacyStep(d, ticks[0]);
      if first.end == Watching {
        var rest := RunLegacy(first.display, ticks[1..]);
        QuitsOnCtrlC(first.display, ticks[1..]);
        if rest.end == Quit {
          assert ticks[1 + rest.used - 1] == ticks[1..][rest.used - 1];
        }
      }
    }
  }

  // ---------------------------------------------------------------------------
  // The watcher itself

  /** `Watcher` in src/bin/main.rs, without its log file. */
  class LegacyWatcher {
    const command: seq<string>
    var content: string
    var lastRefreshTimestamp: nat

    function View(): WatchView
      reads this
    {
      WatchView(content, lastRefreshTimestamp)
    }

    /** `Watcher::new` at clock reading `nowMs`: the split command, nothing shown, refreshed "now". */
    constructor New(commandLine: string, nowMs: nat)
      ensures command == CommandWords(commandLine)
      ensures content == "" && lastRefreshTimestamp == nowMs
    {
      command := Split(commandLine, ' ');
      content := "";
      lastRefreshTimestamp := nowMs;
    }

    /** `run_command`. */
    method RunCommand(nowMs: nat, run: ProcessRun) returns (outcome: CommandOutcome)
      modifies this
      ensures (View(), outcome) == Refresh(old(View()), nowMs, run)
    {
      if nowMs < lastRefreshTimestamp {
        return Panicked(ClockRegressed);
      }
      if nowMs - lastRefreshTimestamp <= REFRESH_INTERVAL_MS {
        return Done;
      }
      lastRefreshTimestamp := nowMs;
      if !run.spawns {
        return Panicked(SpawnFailed);
      }
      if run.output.None? {
        return IoError;
      }
      if run.waitSucceeds {
        content := run.output.value;
        if !run.logWritten {
          return IoError;
        }
      }
      return Done;
    }

    /** `run_app` over the given passes; `refreshes` are the times at which the command ran. */
    method RunApp(ticks: seq<LegacyTick>) returns (end: LegacyEnd, refreshes: seq<nat>)
      modifies this
      ensures var r := RunLegacy(old(View()), ticks);
        View() == r.display && end == r.end && refreshes == r.refreshes
    {
      refreshes := [];
      ghost var whole := RunLegacy(View(), ticks);
      var k := 0;
      while k < |ticks|
        invariant 0 <= k <= |ticks|
        invariant var rest := RunLegacy(View(), ticks[k..]);
          whole == LegacyRun(rest.display, refreshes + rest.refreshes, rest.end, k + rest.used)
      {
        assert ticks[k..][0] == ticks[k] && ticks[k..][1..] == ticks[k + 1..];
        var tick := ticks[k];
        ghost var step := LegacyStep(View(), tick);
        if !tick.drawOk {
          assert refreshes + [] == refreshes;
          return Failed, refreshes;
        }
        ghost var earlier := refreshes;
        var before := lastRefreshTimestamp;
        var outcome := RunCommand(tick.nowMs, tick.process);
        if lastRefreshTimestamp != before {
          refreshes := refreshes + [tick.nowMs];
        }
        assert refreshes == earlier + step.refreshes;
        if outcome.Panicked? {
          return Crashed(outcome.panic), refreshes;
        }
        if outcome == IoError || tick.poll.PollFailed? {
          return Failed, refreshes;
        }
        if tick.poll.Input? && tick.poll.event.KeyPress? && IsCtrlC(tick.poll.event.key) {
          return Quit, refreshes;
        }
        AppendAssoc(earlier, step.refreshes, RunLegacy(View(), ticks[k + 1..]).refreshes);
        k := k + 1;
      }
      assert ticks[k..] == [];
      return Watching, refreshes;
    }
  }
}
