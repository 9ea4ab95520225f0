/**
 * The stand-alone watcher (src/bin/watcher.rs): the command-line values in
 * milliseconds, the optional setup commands, then the watch loop without a
 * display: run the command, stop on a pending interrupt or once the watch
 * duration is exceeded, otherwise sleep for the interval; finally kill the
 * shell. Every error is returned from `main` through `?`.
 */
module Standalone {
  import opened Wrappers
  import opened Shell
  import opened Schedule

  /** `DEFAULT_COMMAND_TIMEOUT`, in milliseconds. */
  const DEFAULT_COMMAND_TIMEOUT_MS: nat := 30 * 1000

  const MILLIS_PER_SECOND: nat := 1000

  /** One more than the largest `u64`. */
  const U64_LIMIT: nat := 0x1_0000_0000_0000_0000

  /** The largest number of seconds whose count of milliseconds still fits a `u64`. */
  const MAX_SECONDS: nat := (U64_LIMIT - 1) / MILLIS_PER_SECOND

  /** The only way the conversions fail: `* 1000` overflows `u64`, which panics. */
  datatype Panic = MultiplyOverflow

  /**
   * `t * 1000` on a `u64` number of seconds: the same span in whole
   * milliseconds, or the overflow panic for more than `MAX_SECONDS`.
   */
  function SecondsToMillis(seconds: nat): (r: Result<nat, Panic>)
    requires seconds < U64_LIMIT
    ensures r.Ok? <==> seconds <= MAX_SECONDS
    ensures r.Ok? ==> r.value < U64_LIMIT && r.value % MILLIS_PER_SECOND == 0
                      && r.value / MILLIS_PER_SECOND == seconds
  {
    if seconds * MILLIS_PER_SECOND < U64_LIMIT then Ok(seconds * MILLIS_PER_SECOND) else Err(MultiplyOverflow)
  }

  /** The command-line arguments the conversions read, already parsed. */
  datatype Args = Args(timeoutSecs: Option<nat>, command: Option<string>, watchDurationSecs: Option<nat>,
                       hasSetup: bool)

  /** Every number on the command line is a `u64`. */
  predicate ArgsInRange(args: Args) {
    && (args.timeoutSecs.Some? ==> args.timeoutSecs.value < U64_LIMIT)
    && (args.watchDurationSecs.Some? ==> args.watchDurationSecs.value < U64_LIMIT)
  }

  /** What `main` sets up before it spawns the shell. */
  datatype Settings = Settings(setup: Option<string>, command: string, commandTimeoutMs: nat,
                               watchDurationMs: Option<nat>)

  /** `args.timeout.map_or(DEFAULT_COMMAND_TIMEOUT, |t| t * 1000)`. */
  function CommandTimeoutMs(timeoutSecs: Option<nat>): (r: Result<nat, Panic>)
    requires timeoutSecs.Some? ==> timeoutSecs.value < U64_LIMIT
    ensures timeoutSecs.None? ==> r == Ok(30000)
    ensures timeoutSecs.Some? ==> (r.Ok? <==> timeoutSecs.value <= MAX_SECONDS)
    ensures timeoutSecs.Some? && r.Ok? ==> r.value / MILLIS_PER_SECOND == timeoutSecs.value
                                           && r.value % MILLIS_PER_SECOND == 0
  {
    match timeoutSecs
    case None => Ok(DEFAULT_COMMAND_TIMEOUT_MS)
    case Some(t) => SecondsToMillis(t)
  }

  /** `args.watch_duration.map(|d| Duration::from_millis(d * 1000))`: absent means unbounded. */
  function WatchDurationMs(watchDurationSecs: Option<nat>): (r: Result<Option<nat>, Panic>)
    requires watchDurationSecs.Some? ==> watchDurationSecs.value < U64_LIMIT
    ensures watchDurationSecs.None? ==> r == Ok(None)
    ensures watchDurationSecs.Some? ==> (r.Ok? <==> watchDurationSecs.value <= MAX_SECONDS)
    ensures watchDurationSecs.Some? && r.Ok? ==>
      r.value.Some? && r.value.value / MILLIS_PER_SECOND == watchDurationSecs.value
      && r.value.value % MILLIS_PER_SECOND == 0
  {
    match watchDurationSecs
    case None => Ok(None)
    case Some(d) =>
      var ms := SecondsToMillis(d);
      if ms.Err? then Err(ms.error) else Ok(Some(ms.value))
  }

  /**
   * Lines 102-117 of `main`: the setup commands are asked for only with
   * `--has-setup`, the command only when `--command` is absent (both come
   * from the editor, here the texts `editedSetup` and `editedCommand`), then
   * the two conversions.
   */
  function Configure(args: Args, editedSetup: string, editedCommand: string): (r: Result<Settings, Panic>)
    requires ArgsInRange(args)
    ensures r.Ok? <==> CommandTimeoutMs(args.timeoutSecs).Ok? && WatchDurationMs(args.watchDurationSecs).Ok?
    ensures r.Ok? ==> (r.value.setup.Some? <==> args.hasSetup)
    ensures r.Ok? && args.hasSetup ==> r.value.setup.value == editedSetup
    ensures r.Ok? ==> r.value.command == if args.command.Some? then args.command.value else editedCommand
    ensures r.Ok? ==> Ok(r.value.commandTimeoutMs) == CommandTimeoutMs(args.timeoutSecs)
                      && Ok(r.value.watchDurationMs) == WatchDurationMs(args.watchDurationSecs)
  {
    var setup := if args.hasSetup then Some(editedSetup) else None;
    var command := args.command.GetOr(editedCommand);
    var timeout := CommandTimeoutMs(args.timeoutSecs);
    var duration := WatchDurationMs(args.watchDurationSecs);
    if timeout.Err? then Err(timeout.error)
    else if duration.Err? then Err(duration.error)
    else Ok(Settings(setup, command, timeout.value, duration.value))
  }

  // ---------------------------------------------------------------------------
  // The watch loop

  /** What `main` does to the shell, in order. */
  datatype Action = Ran(command: string) | Slept(ms: nat) | Killed

  /**
   * How `main` ends: the loop stopped and the shell was killed (`kill` says
   * whether that worked), a command failed and `?` returned its error, or not
   * yet (the observations ran out).
   */
  datatype Exit = Stopped(kill: Outcome<Error>) | ExecFailed(error: Error) | StillRunning

  /** A run of `main` from the setup commands on: the actions, how many times the loop ran the command, the end, and the shell. */
  datatype Trace = Trace(steps: seq<Action>, passes: nat, end: Exit, session: Session)

  /** What `main` returns for a run that ended. */
  function MainResult(end: Exit): (r: Option<Outcome<Error>>)
    ensures r.None? <==> end.StillRunning?
    ensures r == Some(Pass) <==> end == Stopped(Pass)
  {
    match end
    case Stopped(k) => Some(k)
    case ExecFailed(e) => Some(Fail(e))
    case StillRunning => None
  }

  /** The loop from some pass on; `observations[0]` is what this pass reads. */
  function Loop(bash: Bash, marker: string, s: Session, command: string, observations: seq<Observation>,
                watchDurationMs: Option<nat>, intervalMs: nat, killSucceeds: bool): (t: Trace)
    ensures |t.steps| >= 1 && t.steps[0] == Ran(command) && t.passes >= 1
    decreases |observations|, 1
  {
    var e := Exec(bash, marker, s, command);
    AfterRun(bash, marker, e.0, e.1, command, observations, watchDurationMs, intervalMs, killSucceeds)
  }

  /** The rest of a pass once the command returned `r`, leaving the shell in `s`. */
  function AfterRun(bash: Bash, marker: string, s: Session, r: Result<string, Error>, command: string,
                    observations: seq<Observation>, watchDurationMs: Option<nat>, intervalMs: nat,
                    killSucceeds: bool): (t: Trace)
    ensures |t.steps| >= 1 && t.steps[0] == Ran(command) && t.passes >= 1
    decreases |observations|, 0
  {
    if r.Err? then Trace([Ran(command)], 1, ExecFailed(r.error), s)
    else if observations == [] then Trace([Ran(command)], 1, StillRunning, s)
    else if StopsAfter(observations[0], watchDurationMs) then
      var k := KillSession(s, killSucceeds);
      Trace([Ran(command), Killed], 1, Stopped(k.1), k.0)
    else
      var rest := Loop(bash, marker, s, command, observations[1..], watchDurationMs, intervalMs, killSucceeds);
      Trace([Ran(command), Slept(intervalMs)] + rest.steps, 1 + rest.passes, rest.end, rest.session)
  }

  /** Lines 122-153 of `main`: the setup commands when there are any, then the loop. */
  function Main(bash: Bash, marker: string, s: Session, setup: Option<string>, command: string,
                observations: seq<Observation>, watchDurationMs: Option<nat>, intervalMs: nat,
                killSucceeds: bool): (t: Trace)
    ensures (setup.Some? && Exec(bash, marker, s, setup.value).1.Err?) || t.passes >= 1
  {
    if setup.Some? && Exec(bash, marker, s, setup.value).1.Err? then
      var e := Exec(bash, marker, s, setup.value);
      Trace([Ran(setup.value)], 0, ExecFailed(e.1.error), e.0)
    else
      Resumed(SetupSteps(setup), 0, Loop(bash, marker, SetupSession(bash, marker, s, setup), command, observations,
                                         watchDurationMs, intervalMs, killSucceeds))
  }

  // ---------------------------------------------------------------------------
  // Properties of the loop

  /** `k` passes that each ran the command and then slept. */
  function Cycles(command: string, intervalMs: nat, k: nat): seq<Action> {
    if k == 0 then [] else [Ran(command), Slept(intervalMs)] + Cycles(command, intervalMs, k - 1)
  }

  /** The kill that follows a normal exit of the loop. */
  function KillSteps(end: Exit): seq<Action> {
    if end.Stopped? then [Killed] else []
  }


  /**
   * The whole shape of the loop: every pass runs the command before it looks
   * at anything, every pass but the last sleeps for the interval, and the
   * shell is killed exactly when the loop was left normally.
   */
  lemma {:induction false} LoopShape(bash: Bash, marker: string, s: Session, command: string,
                                     observations: seq<Observation>, watchDurationMs: Option<nat>,
                                     intervalMs: nat, killSucceeds: bool)
    ensures var t := Loop(bash, marker, s, command, observations, watchDurationMs, intervalMs, killSucceeds);
      t.steps == Cycles(command, intervalMs, t.passes - 1) + [Ran(command)] + KillSteps(t.end)
    decreases |observations|, 1
  {
    var e := Exec(bash, marker, s, command);
    AfterRunShape(bash, marker, e.0, e.1, command, observations, watchDurationMs, intervalMs, killSucceeds);
  }

  lemma {:induction false} AfterRunShape(bash: Bash, marker: string, s: Session, r: Result<string, Error>,
                                         command: string, observations: seq<Observation>,
                                         watchDurationMs: Option<nat>, intervalMs: nat, killSucceeds: bool)
    ensures var t := AfterRun(bash, marker, s, r, command, observations, watchDurationMs, intervalMs,
                              killSucceeds);
      t.steps == Cycles(command, intervalMs, t.passes - 1) + [Ran(command)] + KillSteps(t.end)
    decreases |observations|, 0
  {
    var t := AfterRun(bash, marker, s, r, command, observations, watchDurationMs, intervalMs, killSucceeds);
    if r.Ok? && observations != [] && !StopsAfter(observations[0], watchDurationMs) {
      var rest := Loop(bash, marker, s, command, observations[1..], watchDurationMs, intervalMs, killSucceeds);
      LoopShape(bash, marker, s, command, observations[1..], watchDurationMs, intervalMs, killSucceeds);
      var head := [Ran(command), Slept(intervalMs)];
      var cycles := Cycles(command, intervalMs, rest.passes - 1);
      assert Cycles(command, intervalMs, t.passes - 1) == head + cycles;
      AppendAssoc(head, cycles + [Ran(command)], KillSteps(t.end));
      AppendAssoc(head, cycles, [Ran(command)]);
    } else {
      assert Cycles(command, intervalMs, 0) == [];
    }
  }

  /**
   * Why the loop stopped after `passes` runs of the command: on the first
   * observation that asks for it, an interrupt before the duration; a failed
   * command or running out of observations means none of those read asked.
   */
  predicate StoppedFor(t: Trace, observations: seq<Observation>, watchDurationMs: Option<nat>,
                       killSucceeds: bool) {
    && 1 <= t.passes
    && (t.end.Stopped? ==>
          t.passes <= |observations| && StopsAfter(observations[t.passes - 1], watchDurationMs)
          && NoStopBefore(observations, t.passes - 1, watchDurationMs)
          && (t.end.kill.Pass? <==> killSucceeds))
    && (t.end.ExecFailed? ==>
          t.passes - 1 <= |observations| && NoStopBefore(observations, t.passes - 1, watchDurationMs))
    && (t.end.StillRunning? ==>
          t.passes == |observations| + 1 && NoStopBefore(observations, |observations|, watchDurationMs))
  }

  lemma {:induction false} LoopStopReason(bash: Bash, marker: string, s: Session, command: string,
                                          observations: seq<Observation>, watchDurationMs: Option<nat>,
                                          intervalMs: nat, killSucceeds: bool)
    ensures StoppedFor(Loop(bash, marker, s, command, observations, watchDurationMs, intervalMs, killSucceeds),
                       observations, watchDurationMs, killSucceeds)
    decreases |observations|, 1
  {
    var e := Exec(bash, marker, s, command);
    AfterRunStopReason(bash, marker, e.0, e.1, command, observations, watchDurationMs, intervalMs, killSucceeds);
  }

  lemma {:induction false} AfterRunStopReason(bash: Bash, marker: string, s: Session, r: Result<string, Error>,
                                              command: string, observations: seq<Observation>,
                                              watchDurationMs: Option<nat>, intervalMs: nat, killSucceeds: bool)
    ensures StoppedFor(AfterRun(bash, marker, s, r, command, observations, watchDurationMs, intervalMs,
                                killSucceeds), observations, watchDurationMs, killSucceeds)
    decreases |observations|, 0
  {
    if r.Ok? && observations != [] && !StopsAfter(observations[0], watchDurationMs) {
      LoopStopReason(bash, marker, s, command, observations[1..], watchDurationMs, intervalMs, killSucceeds);
      var tail := observations[1..];
      assert forall j :: 1 <= j < |observations| ==> observations[j] == tail[j - 1];
    }
  }

  /** The setup commands, when there are any, as `main` runs them. */
  function SetupSteps(setup: Option<string>): seq<Action> {
    if setup.Some? then [Ran(setup.value)] else []
  }

  /** The setup commands run once, first, and only when given; a failing setup ends `main` before the loop. */
  lemma MainRunsSetupFirst(bash: Bash, marker: string, s: Session, setup: Option<string>, command: string,
                           observations: seq<Observation>, watchDurationMs: Option<nat>, intervalMs: nat,
                           killSucceeds: bool)
    ensures var t := Main(bash, marker, s, setup, command, observations, watchDurationMs, intervalMs,
                          killSucceeds);
      && |SetupSteps(setup)| <= |t.steps| && t.steps[..|SetupSteps(setup)|] == SetupSteps(setup)
      && (setup.Some? && Exec(bash, marker, s, setup.value).1.Err? ==>
            t.steps == SetupSteps(setup) && t.passes == 0 && t.end.ExecFailed?)
  {
    var t := Main(bash, marker, s, setup, command, observations, watchDurationMs, intervalMs, killSucceeds);
    if setup.Some? {
      assert t.steps[0] == Ran(setup.value);
    }
  }

  /** The shell the setup commands leave behind. */
  function SetupSession(bash: Bash, marker: string, s: Session, setup: Option<string>): Session {
    if setup.Some? then Exec(bash, marker, s, setup.value).0 else s
  }

  /**
   * After setup commands that succeeded (or none), `main` runs the loop from
   * the shell the setup left behind; the setup's output is thrown away.
   */
  lemma MainLoopsAfterSetup(bash: Bash, marker: string, s: Session, setup: Option<string>, command: string,
                            observations: seq<Observation>, watchDurationMs: Option<nat>, intervalMs: nat,
                            killSucceeds: bool)
    requires setup.Some? ==> Exec(bash, marker, s, setup.value).1.Ok?
    ensures var t := Main(bash, marker, s, setup, command, observations, watchDurationMs, intervalMs,
                          killSucceeds);
      && 1 <= t.passes
      && t.steps == SetupSteps(setup) + Cycles(command, intervalMs, t.passes - 1) + [Ran(command)]
                    + KillSteps(t.end)
  {
    var s1 := SetupSession(bash, marker, s, setup);
    var rest := Loop(bash, marker, s1, command, observations, watchDurationMs, intervalMs, killSucceeds);
    LoopShape(bash, marker, s1, command, observations, watchDurationMs, intervalMs, killSucceeds);
    ResumedShape(SetupSteps(setup), command, intervalMs, rest);
  }

  /** After setup commands that succeeded (or none), `main` stops for the loop's reasons. */
  lemma MainStopReason(bash: Bash, marker: string, s: Session, setup: Option<string>, command: string,
                       observations: seq<Observation>, watchDurationMs: Option<nat>, intervalMs: nat,
                       killSucceeds: bool)
    requires setup.Some? ==> Exec(bash, marker, s, setup.value).1.Ok?
    ensures StoppedFor(Main(bash, marker, s, setup, command, observations, watchDurationMs, intervalMs,
                            killSucceeds), observations, watchDurationMs, killSucceeds)
  {
    var s1 := SetupSession(bash, marker, s, setup);
    var rest := Loop(bash, marker, s1, command, observations, watchDurationMs, intervalMs, killSucceeds);
    LoopStopReason(bash, marker, s1, command, observations, watchDurationMs, intervalMs, killSucceeds);
    ResumedStopReason(SetupSteps(setup), rest, observations, watchDurationMs, killSucceeds);
  }

  /** Actions done before the loop do not change why it stopped. */
  lemma ResumedStopReason(done: seq<Action>, rest: Trace, observations: seq<Observation>,
                          watchDurationMs: Option<nat>, killSucceeds: bool)
    requires StoppedFor(rest, observations, watchDurationMs, killSucceeds)
    ensures StoppedFor(Resumed(done, 0, rest), observations, watchDurationMs, killSucceeds)
  {
  }

  /** Actions done before the loop stay in front of its steps and change neither its passes nor its end. */
  lemma ResumedShape(done: seq<Action>, command: string, intervalMs: nat, rest: Trace)
    requires 1 <= rest.passes
    requires rest.steps == Cycles(command, intervalMs, rest.passes - 1) + [Ran(command)] + KillSteps(rest.end)
    ensures var t := Resumed(done, 0, rest);
      && t.passes == rest.passes && t.end == rest.end
      && t.steps == done + Cycles(command, intervalMs, t.passes - 1) + [Ran(command)] + KillSteps(t.end)
  {
    var cycles := Cycles(command, intervalMs, rest.passes - 1);
    AppendAssoc(done, cycles + [Ran(command)], KillSteps(rest.end));
    AppendAssoc(done, cycles, [Ran(command)]);
  }

  // ---------------------------------------------------------------------------
  // `main` itself

  /** A trace preceded by actions already taken and passes already run. */
  function Resumed(done: seq<Action>, passes: nat, rest: Trace): Trace {
    Trace(done + rest.steps, passes + rest.passes, rest.end, rest.session)
  }

  /**
   * Lines 122-151 of `main` on a shell already spawned: `observations[k]` is
   * what the loop reads after its pass `k + 1` (a pending interrupt, and the
   * time since the start checkpoint).
   */
  method RunMain(watcher: Watcher, setup: Option<string>, command: string, intervalMs: nat,
                 watchDurationMs: Option<nat>, observations: seq<Observation>, killSucceeds: bool)
    returns (steps: seq<Action>, passes: nat, end: Exit)
    modifies watcher
    ensures var t := Main(watcher.bash, watcher.marker, old(watcher.State()), setup, command, observations,
                          watchDurationMs, intervalMs, killSucceeds);
      steps == t.steps && passes == t.passes && end == t.end && watcher.State() == t.session
  {
    steps := [];
    if setup.Some? {
      var captured := watcher.ExecCmdAndFetchOutput(setup.value);
      if captured.Err? {
        return [Ran(setup.value)], 0, ExecFailed(captured.error);
      }
      steps := [Ran(setup.value)];
    }
    var passSteps;
    passSteps, passes, end := RunLoop(watcher, command, intervalMs, watchDurationMs, observations, killSucceeds);
    steps := steps + passSteps;
  }

  /** The watch loop of `main`, lines 130-151. */
  method RunLoop(watcher: Watcher, command: string, intervalMs: nat, watchDurationMs: Option<nat>,
                 observations: seq<Observation>, killSucceeds: bool)
    returns (steps: seq<Action>, passes: nat, end: Exit)
    modifies watcher
    ensures var t := Loop(watcher.bash, watcher.marker, old(watcher.State()), command, observations,
                          watchDurationMs, intervalMs, killSucceeds);
      steps == t.steps && passes == t.passes && end == t.end && watcher.State() == t.session
  {
    ghost var whole := Loop(watcher.bash, watcher.marker, watcher.State(), command, observations,
                            watchDurationMs, intervalMs, killSucceeds);
    steps, passes := [], 0;
    var remaining := observations;
    assert whole == Resumed(steps, passes, whole);
    while true
      invariant whole == Resumed(steps, passes, Loop(watcher.bash, watcher.marker, watcher.State(), command,
                                                     remaining, watchDurationMs, intervalMs, killSucceeds))
      decreases |remaining|
    {
      ghost var pass := Loop(watcher.bash, watcher.marker, watcher.State(), command, remaining,
                             watchDurationMs, intervalMs, killSucceeds);
      var captured := watcher.ExecCmdAndFetchOutput(command);
      assert pass == AfterRun(watcher.bash, watcher.marker, watcher.State(), captured, command, remaining,
                              watchDurationMs, intervalMs, killSucceeds);
      if captured.Err? {
        return steps + [Ran(command)], passes + 1, ExecFailed(captured.error);
      }
      if remaining == [] {
        return steps + [Ran(command)], passes + 1, StillRunning;
      }
      if StopsAfter(remaining[0], watchDurationMs) {
        ghost var stop := KillSession(watcher.State(), killSucceeds);
        var killed := watcher.Kill(killSucceeds);
        assert (watcher.State(), killed) == stop;
        return steps + [Ran(command), Killed], passes + 1, Stopped(killed);
      }
      // thread::sleep(interval)
      ghost var rest := Loop(watcher.bash, watcher.marker, watcher.State(), command, remaining[1..],
                             watchDurationMs, intervalMs, killSucceeds);
      AppendAssoc(steps, [Ran(command), Slept(intervalMs)], rest.steps);
      steps := steps + [Ran(command), Slept(intervalMs)];
      passes := passes + 1;
      remaining := remaining[1..];
    }
  }
}
