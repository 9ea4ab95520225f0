/**
 * The watcher thread (src/bin/watcher_tui/tui/mod.rs): run the setup
 * commands once and report them as iteration 0, then run the main commands
 * again and again, reporting each pass with the next iteration number, until
 * the close flag is set or the watch duration is exceeded; then report `End`
 * and kill the shell.
 *
 * The channel is an unbounded FIFO queue. The close flag and the elapsed time
 * are read through a sequence of observations, one per pass.
 */
module Producer {
  import opened Wrappers
  import opened Shell
  import opened Schedule
  import opened Query

  datatype IterationOutput = IterationOutput(iteration: nat, output: string)

  datatype OutputEvent =
    | SetupResult(result: IterationOutput)
    | IterationResult(result: IterationOutput)
    | End

  /** The unbounded channel between the watcher thread and the display. */
  class Channel {
    var queue: seq<OutputEvent>

    constructor ()
      ensures queue == []
    {
      queue := [];
    }

    /** `send` / `try_send` on an unbounded channel: always accepted, appended at the back. */
    method Send(e: OutputEvent)
      modifies this
      ensures queue == old(queue) + [e]
    {
      queue := queue + [e];
    }

    /** `try_recv`: the oldest event, or nothing when the queue is empty. */
    method TryRecv() returns (e: Option<OutputEvent>)
      modifies this
      ensures old(queue) == [] ==> e == None && queue == []
      ensures old(queue) != [] ==> e == Some(old(queue)[0]) && queue == old(queue)[1..]
    {
      if queue == [] {
        e := None;
      } else {
        e := Some(queue[0]);
        queue := queue[1..];
      }
    }
  }

  /** What the watcher thread does, in order. */
  datatype Step = Ran(command: string) | Sent(event: OutputEvent) | Slept(ms: nat) | Killed

  /**
   * How the thread stops: normally, by a panic on a failed command (`unwrap`),
   * by a panic on a failed kill, or not yet (the observations ran out).
   */
  datatype RunEnd = Finished | ExecPanicked | KillPanicked | StillRunning

  /** A run of the thread: its steps, the events it sent, how it ended, and the shell afterwards. */
  datatype Run = Run(steps: seq<Step>, events: seq<OutputEvent>, end: RunEnd, session: Session)

  /** The events a sequence of steps sends, in order. */
  function Events(steps: seq<Step>): seq<OutputEvent> {
    if steps == [] then []
    else (if steps[0].Sent? then [steps[0].event] else []) + Events(steps[1..])
  }

  /** The iteration numbers of the `IterationResult` events, in order. */
  function IterationsOf(events: seq<OutputEvent>): seq<nat> {
    if events == [] then []
    else (if events[0].IterationResult? then [events[0].result.iteration] else []) + IterationsOf(events[1..])
  }

  /**
   * The main loop from pass `iteration` on: run the command, send its result,
   * then stop or sleep. `observations[0]` is what this pass reads; once they
   * run out the thread is still running.
   */
  function Passes(bash: Bash, marker: string, s: Session, command: string, observations: seq<Observation>,
                  watchDurationMs: Option<nat>, intervalMs: nat, iteration: nat, killSucceeds: bool): (run: Run)
    ensures |run.steps| >= 1 && run.steps[0] == Ran(command)
    decreases |observations|, 1
  {
    var e := Exec(bash, marker, s, command);
    AfterPass(bash, marker, e.0, e.1, command, observations, watchDurationMs, intervalMs, iteration, killSucceeds)
  }

  /** The rest of a pass once its command returned `r`, leaving the shell in `s`. */
  function AfterPass(bash: Bash, marker: string, s: Session, r: Result<string, Error>, command: string,
                     observations: seq<Observation>, watchDurationMs: Option<nat>, intervalMs: nat,
                     iteration: nat, killSucceeds: bool): (run: Run)
    ensures |run.steps| >= 1 && run.steps[0] == Ran(command)
    decreases |observations|, 0
  {
    if r.Err? then Run([Ran(command)], [], ExecPanicked, s)
    else
      var ev := IterationResult(IterationOutput(iteration, r.value));
      if observations == [] then Run([Ran(command), Sent(ev)], [ev], StillRunning, s)
      else if StopsAfter(observations[0], watchDurationMs) then
        var k := KillSession(s, killSucceeds);
        Run([Ran(command), Sent(ev), Sent(End), Killed], [ev, End], if k.1.Pass? then Finished else KillPanicked,
            k.0)
      else
        var rest := Passes(bash, marker, s, command, observations[1..], watchDurationMs, intervalMs,
                           iteration + 1, killSucceeds);
        Run([Ran(command), Sent(ev), Slept(intervalMs)] + rest.steps, [ev] + rest.events, rest.end, rest.session)
  }

  /** The whole watcher thread. */
  function WatcherThread(bash: Bash, marker: string, s: Session, query: QueryState, intervalMs: nat,
                         watchDurationMs: Option<nat>, observations: seq<Observation>, killSucceeds: bool): (run: Run)
    ensures |run.steps| >= 1 && run.steps[0] == Ran(query.setupCommands)
  {
    var e := Exec(bash, marker, s, query.setupCommands);
    if e.1.Err? then Run([Ran(query.setupCommands)], [], ExecPanicked, e.0)
    else
      var first := SetupResult(IterationOutput(0, e.1.value));
      var rest := Passes(bash, marker, e.0, query.mainCommands, observations, watchDurationMs, intervalMs, 1,
                         killSucceeds);
      Run([Ran(query.setupCommands), Sent(first)] + rest.steps, [first] + rest.events, rest.end, rest.session)
  }

  // ---------------------------------------------------------------------------
  // Bookkeeping lemmas

  lemma {:induction false} EventsAppend(a: seq<Step>, b: seq<Step>)
    ensures Events(a + b) == Events(a) + Events(b)
    decreases |a|
  {
    if a == [] {
      assert a + b == b;
    } else {
      assert (a + b)[0] == a[0];
      assert (a + b)[1..] == a[1..] + b;
      EventsAppend(a[1..], b);
    }
  }

  lemma {:induction false} IterationsAppend(a: seq<OutputEvent>, b: seq<OutputEvent>)
    ensures IterationsOf(a + b) == IterationsOf(a) + IterationsOf(b)
    decreases |a|
  {
    if a == [] {
      assert a + b == b;
    } else {
      assert (a + b)[0] == a[0];
      assert (a + b)[1..] == a[1..] + b;
      IterationsAppend(a[1..], b);
    }
  }

  lemma EventsOfSingle(st: Step)
    ensures Events([st]) == if st.Sent? then [st.event] else []
  {
    assert [st][1..] == [];
  }

  lemma IterationsOfSingle(e: OutputEvent)
    ensures IterationsOf([e]) == if e.IterationResult? then [e.result.iteration] else []
  {
    assert [e][1..] == [];
  }

  /** Events are recorded in the order of their `Sent` steps, and only those. */
  lemma {:induction false} PassesEventsSent(bash: Bash, marker: string, s: Session, command: string,
                                            observations: seq<Observation>, watchDurationMs: Option<nat>,
                                            intervalMs: nat, iteration: nat, killSucceeds: bool)
    ensures var run := Passes(bash, marker, s, command, observations, watchDurationMs, intervalMs, iteration,
                              killSucceeds);
      Events(run.steps) == run.events
    decreases |observations|, 2
  {
    var e := Exec(bash, marker, s, command);
    AfterPassEventsSent(bash, marker, e.0, e.1, command, observations, watchDurationMs, intervalMs, iteration,
                        killSucceeds);
  }

  lemma {:induction false} AfterPassEventsSent(bash: Bash, marker: string, s: Session, r: Result<string, Error>,
                                               command: string, observations: seq<Observation>,
                                               watchDurationMs: Option<nat>, intervalMs: nat, iteration: nat,
                                               killSucceeds: bool)
    ensures var run := AfterPass(bash, marker, s, r, command, observations, watchDurationMs, intervalMs,
                                 iteration, killSucceeds);
      Events(run.steps) == run.events
    decreases |observations|, 1
  {
    if r.Err? {
      EventsOfSingle(Ran(command));
    } else {
      var ev := IterationResult(IterationOutput(iteration, r.value));
      if observations == [] {
        EventsOfPass(command, ev, []);
        assert [Ran(command), Sent(ev)] + [] == [Ran(command), Sent(ev)];
      } else if StopsAfter(observations[0], watchDurationMs) {
        EventsOfPass(command, ev, [Sent(End), Killed]);
        EventsOfEndKilled();
        assert [Ran(command), Sent(ev)] + [Sent(End), Killed] == [Ran(command), Sent(ev), Sent(End), Killed];
      } else {
        AfterPassEventsSentOn(bash, marker, s, r, command, observations, watchDurationMs, intervalMs, iteration,
                              killSucceeds);
      }
    }
  }

  /** The recursive case of `AfterPassEventsSent`: the pass neither failed nor stopped. */
  lemma {:induction false} AfterPassEventsSentOn(bash: Bash, marker: string, s: Session, r: Result<string, Error>,
                                                 command: string, observations: seq<Observation>,
                                                 watchDurationMs: Option<nat>, intervalMs: nat, iteration: nat,
                                                 killSucceeds: bool)
    requires r.Ok? && observations != [] && !StopsAfter(observations[0], watchDurationMs)
    ensures var run := AfterPass(bash, marker, s, r, command, observations, watchDurationMs, intervalMs,
                                 iteration, killSucceeds);
      Events(run.steps) == run.events
    decreases |observations|, 0
  {
    var ev := IterationResult(IterationOutput(iteration, r.value));
    var rest := Passes(bash, marker, s, command, observations[1..], watchDurationMs, intervalMs,
                       iteration + 1, killSucceeds);
    PassesEventsSent(bash, marker, s, command, observations[1..], watchDurationMs, intervalMs, iteration + 1,
                     killSucceeds);
    EventsOfPass(command, ev, [Slept(intervalMs)] + rest.steps);
    EventsOfSleep(intervalMs, rest.steps);
    assert [Ran(command), Sent(ev)] + ([Slept(intervalMs)] + rest.steps)
        == [Ran(command), Sent(ev), Slept(intervalMs)] + rest.steps;
  }

  /** A pass that ran its command and sent `ev` sends `ev` before whatever follows. */
  lemma EventsOfPass(command: string, ev: OutputEvent, tail: seq<Step>)
    ensures Events([Ran(command), Sent(ev)] + tail) == [ev] + Events(tail)
  {
    var steps := [Ran(command), Sent(ev)] + tail;
    assert steps[1..] == [Sent(ev)] + tail;
    assert steps[1..][1..] == tail;
  }

  lemma EventsOfSleep(ms: nat, tail: seq<Step>)
    ensures Events([Slept(ms)] + tail) == Events(tail)
  {
    assert ([Slept(ms)] + tail)[1..] == tail;
  }

  lemma EventsOfEndKilled()
    ensures Events([Sent(End), Killed]) == [End]
  {
    assert [Sent(End), Killed][1..] == [Killed];
    EventsOfSingle(Killed);
  }

  // ---------------------------------------------------------------------------
  // Properties of the main loop. Each is proved about `AfterPass` for any
  // result of the pass's command, and carried over to `Passes`.

  /** Iteration numbers that run up by one from `from`. */
  predicate Consecutive(ns: seq<nat>, from: nat) {
    forall i :: 0 <= i < |ns| ==> ns[i] == from + i
  }

  /** What the main loop sends: iteration results, and `End` only as the very last event. */
  predicate PassEvents(ev: seq<OutputEvent>) {
    forall i :: 0 <= i < |ev| ==> ev[i].IterationResult? || (ev[i] == End && i == |ev| - 1)
  }

  /** Passes are numbered consecutively from the first one, without gaps or repeats. */
  lemma {:induction false} PassesNumbered(bash: Bash, marker: string, s: Session, command: string,
                                          observations: seq<Observation>, watchDurationMs: Option<nat>,
                                          intervalMs: nat, iteration: nat, killSucceeds: bool)
    ensures Consecutive(IterationsOf(Passes(bash, marker, s, command, observations, watchDurationMs, intervalMs,
                                            iteration, killSucceeds).events), iteration)
    decreases |observations|, 1
  {
    var e := Exec(bash, marker, s, command);
    AfterPassNumbered(bash, marker, e.0, e.1, command, observations, watchDurationMs, intervalMs, iteration,
                      killSucceeds);
  }

  lemma {:induction false} AfterPassNumbered(bash: Bash, marker: string, s: Session, r: Result<string, Error>,
                                             command: string, observations: seq<Observation>,
                                             watchDurationMs: Option<nat>, intervalMs: nat, iteration: nat,
                                             killSucceeds: bool)
    ensures Consecutive(IterationsOf(AfterPass(bash, marker, s, r, command, observations, watchDurationMs,
                                               intervalMs, iteration, killSucceeds).events), iteration)
    decreases |observations|, 0
  {
    var run := AfterPass(bash, marker, s, r, command, observations, watchDurationMs, intervalMs, iteration,
                         killSucceeds);
    if r.Ok? {
      var ev := IterationResult(IterationOutput(iteration, r.value));
      IterationsOfSingle(ev);
      if observations != [] && StopsAfter(observations[0], watchDurationMs) {
        IterationsAppend([ev], [End]);
        IterationsOfSingle(End);
        assert [ev] + [End] == run.events;
      } else if observations != [] {
        var rest := Passes(bash, marker, s, command, observations[1..], watchDurationMs, intervalMs,
                           iteration + 1, killSucceeds);
        PassesNumbered(bash, marker, s, command, observations[1..], watchDurationMs, intervalMs, iteration + 1,
                       killSucceeds);
        IterationsAppend([ev], rest.events);
        var ns' := IterationsOf(rest.events);
        var ns := IterationsOf(run.events);
        assert ns == [iteration] + ns';
        forall i | 0 <= i < |ns| ensures ns[i] == iteration + i {
          if i > 0 {
            assert ns[i] == ns'[i - 1];
          }
        }
      }
    }
  }

  /** How a run of the main loop ends, read off its steps and events. */
  predicate EndsAsSent(run: Run, command: string) {
    && |run.steps| >= 1
    && PassEvents(run.events)
    && (End in run.events <==> run.end in {Finished, KillPanicked})
    && (End in run.events ==> run.steps[|run.steps| - 1] == Killed)
    && (run.end == ExecPanicked ==> Killed !in run.steps && run.steps[|run.steps| - 1] == Ran(command))
    && (run.end == StillRunning ==> Killed !in run.steps)
  }

  /**
   * The main loop sends one result per successful pass and `End` exactly when
   * it was left normally, as its last event, with only the kill after it; a
   * panicking command ends the thread without `End` and without a kill.
   */
  lemma {:induction false} PassesEnd(bash: Bash, marker: string, s: Session, command: string,
                                     observations: seq<Observation>, watchDurationMs: Option<nat>,
                                     intervalMs: nat, iteration: nat, killSucceeds: bool)
    ensures EndsAsSent(Passes(bash, marker, s, command, observations, watchDurationMs, intervalMs, iteration,
                              killSucceeds), command)
    decreases |observations|, 1
  {
    var e := Exec(bash, marker, s, command);
    AfterPassEnd(bash, marker, e.0, e.1, command, observations, watchDurationMs, intervalMs, iteration,
                 killSucceeds);
  }

  lemma {:induction false} AfterPassEnd(bash: Bash, marker: string, s: Session, r: Result<string, Error>,
                                        command: string, observations: seq<Observation>,
                                        watchDurationMs: Option<nat>, intervalMs: nat, iteration: nat,
                                        killSucceeds: bool)
    ensures EndsAsSent(AfterPass(bash, marker, s, r, command, observations, watchDurationMs, intervalMs,
                                 iteration, killSucceeds), command)
    decreases |observations|, 0
  {
    var run := AfterPass(bash, marker, s, r, command, observations, watchDurationMs, intervalMs, iteration,
                         killSucceeds);
    if r.Ok? && observations != [] && !StopsAfter(observations[0], watchDurationMs) {
      var ev := IterationResult(IterationOutput(iteration, r.value));
      var rest := Passes(bash, marker, s, command, observations[1..], watchDurationMs, intervalMs,
                         iteration + 1, killSucceeds);
      PassesEnd(bash, marker, s, command, observations[1..], watchDurationMs, intervalMs, iteration + 1,
                killSucceeds);
      var head := [Ran(command), Sent(ev), Slept(intervalMs)];
      assert run.steps == head + rest.steps;
      var evs := run.events;
      assert evs == [ev] + rest.events;
      forall i | 0 <= i < |evs| ensures evs[i].IterationResult? || (evs[i] == End && i == |evs| - 1) {
        if i > 0 {
          assert evs[i] == rest.events[i - 1];
        }
      }
      assert End in evs <==> End in rest.events;
      assert Killed in run.steps <==> Killed in rest.steps;
      assert run.steps[|run.steps| - 1] == rest.steps[|rest.steps| - 1];
    }
  }

  /** The stop rule, in terms of the number `n` of results a run sent. */
  predicate StoppedFor(run: Run, observations: seq<Observation>, watchDurationMs: Option<nat>) {
    var n := |IterationsOf(run.events)|;
    && (run.end in {Finished, KillPanicked} ==>
          1 <= n <= |observations| && StopsAfter(observations[n - 1], watchDurationMs)
          && NoStopBefore(observations, n - 1, watchDurationMs))
    && (run.end == ExecPanicked ==> n <= |observations| && NoStopBefore(observations, n, watchDurationMs))
    && (run.end == StillRunning ==>
          n == |observations| + 1 && NoStopBefore(observations, |observations|, watchDurationMs))
  }

  /**
   * Why the main loop stopped: after `n` successful passes it stops normally
   * exactly on the first observation that asks for it; it panics or is still
   * running only if no observation it read asked to stop.
   */
  lemma {:induction false} PassesStopReason(bash: Bash, marker: string, s: Session, command: string,
                                            observations: seq<Observation>, watchDurationMs: Option<nat>,
                                            intervalMs: nat, iteration: nat, killSucceeds: bool)
    ensures StoppedFor(Passes(bash, marker, s, command, observations, watchDurationMs, intervalMs, iteration,
                              killSucceeds), observations, watchDurationMs)
    decreases |observations|, 2
  {
    var e := Exec(bash, marker, s, command);
    AfterPassStopReason(bash, marker, e.0, e.1, command, observations, watchDurationMs, intervalMs, iteration,
                        killSucceeds);
  }

  lemma {:induction false} AfterPassStopReason(bash: Bash, marker: string, s: Session, r: Result<string, Error>,
                                               command: string, observations: seq<Observation>,
                                               watchDurationMs: Option<nat>, intervalMs: nat, iteration: nat,
                                               killSucceeds: bool)
    ensures StoppedFor(AfterPass(bash, marker, s, r, command, observations, watchDurationMs, intervalMs,
                                 iteration, killSucceeds), observations, watchDurationMs)
    decreases |observations|, 1
  {
    var run := AfterPass(bash, marker, s, r, command, observations, watchDurationMs, intervalMs, iteration,
                         killSucceeds);
    if r.Ok? {
      var ev := IterationResult(IterationOutput(iteration, r.value));
      IterationsOfSingle(ev);
      if observations != [] && StopsAfter(observations[0], watchDurationMs) {
        IterationsAppend([ev], [End]);
        IterationsOfSingle(End);
        assert [ev] + [End] == run.events;
      } else if observations != [] {
        AfterPassStopReasonOn(bash, marker, s, r, command, observations, watchDurationMs, intervalMs, iteration,
                              killSucceeds);
      }
    }
  }

  /** The recursive case of `AfterPassStopReason`: the pass neither failed nor stopped. */
  lemma {:induction false} AfterPassStopReasonOn(bash: Bash, marker: string, s: Session, r: Result<string, Error>,
                                                 command: string, observations: seq<Observation>,
                                                 watchDurationMs: Option<nat>, intervalMs: nat, iteration: nat,
                                                 killSucceeds: bool)
    requires r.Ok? && observations != [] && !StopsAfter(observations[0], watchDurationMs)
    ensures StoppedFor(AfterPass(bash, marker, s, r, command, observations, watchDurationMs, intervalMs,
                                 iteration, killSucceeds), observations, watchDurationMs)
    decreases |observations|, 0
  {
    var ev := IterationResult(IterationOutput(iteration, r.value));
    var rest := Passes(bash, marker, s, command, observations[1..], watchDurationMs, intervalMs,
                       iteration + 1, killSucceeds);
    PassesStopReason(bash, marker, s, command, observations[1..], watchDurationMs, intervalMs, iteration + 1,
                     killSucceeds);
    IterationsOfSingle(ev);
    IterationsAppend([ev], rest.events);
    var m := |IterationsOf(rest.events)|;
    if rest.end in {Finished, KillPanicked} {
      NoStopBeforeCons(observations, m - 1, watchDurationMs);
    } else if rest.end == ExecPanicked {
      NoStopBeforeCons(observations, m, watchDurationMs);
    } else {
      NoStopBeforeCons(observations, |observations| - 1, watchDurationMs);
    }
  }

  /** The thread sleeps for the interval only between two passes. */
  predicate SleepsBetweenPasses(steps: seq<Step>, command: string, intervalMs: nat) {
    forall i :: 0 <= i < |steps| && steps[i].Slept? ==>
      && steps[i].ms == intervalMs
      && 0 < i && steps[i - 1].Sent? && steps[i - 1].event.IterationResult?
      && i + 1 < |steps| && steps[i + 1] == Ran(command)
  }

  lemma {:induction false} PassesSleep(bash: Bash, marker: string, s: Session, command: string,
                                       observations: seq<Observation>, watchDurationMs: Option<nat>,
                                       intervalMs: nat, iteration: nat, killSucceeds: bool)
    ensures SleepsBetweenPasses(Passes(bash, marker, s, command, observations, watchDurationMs, intervalMs,
                                       iteration, killSucceeds).steps, command, intervalMs)
    decreases |observations|, 1
  {
    var e := Exec(bash, marker, s, command);
    AfterPassSleep(bash, marker, e.0, e.1, command, observations, watchDurationMs, intervalMs, iteration,
                   killSucceeds);
  }

  lemma {:induction false} AfterPassSleep(bash: Bash, marker: string, s: Session, r: Result<string, Error>,
                                          command: string, observations: seq<Observation>,
                                          watchDurationMs: Option<nat>, intervalMs: nat, iteration: nat,
                                          killSucceeds: bool)
    ensures SleepsBetweenPasses(AfterPass(bash, marker, s, r, command, observations, watchDurationMs, intervalMs,
                                          iteration, killSucceeds).steps, command, intervalMs)
    decreases |observations|, 0
  {
    var run := AfterPass(bash, marker, s, r, command, observations, watchDurationMs, intervalMs, iteration,
                         killSucceeds);
    if r.Ok? && observations != [] && !StopsAfter(observations[0], watchDurationMs) {
      var ev := IterationResult(IterationOutput(iteration, r.value));
      var rest := Passes(bash, marker, s, command, observations[1..], watchDurationMs, intervalMs,
                         iteration + 1, killSucceeds);
      PassesSleep(bash, marker, s, command, observations[1..], watchDurationMs, intervalMs, iteration + 1,
                  killSucceeds);
      var head := [Ran(command), Sent(ev), Slept(intervalMs)];
      assert run.steps == head + rest.steps;
      forall i | 0 <= i < |run.steps| && run.steps[i].Slept?
        ensures run.steps[i].ms == intervalMs
        ensures 0 < i && run.steps[i - 1].Sent? && run.steps[i - 1].event.IterationResult?
        ensures i + 1 < |run.steps| && run.steps[i + 1] == Ran(command)
      {
        if i >= 3 {
          assert run.steps[i] == rest.steps[i - 3];
          if i > 3 {
            assert run.steps[i - 1] == rest.steps[i - 4];
          } else {
            assert false;
          }
          assert run.steps[i + 1] == rest.steps[i - 2];
        }
      }
    }
  }

  // ---------------------------------------------------------------------------
  // Properties of the whole thread

  /**
   * The setup commands are reported first, as iteration 0, and only when they
   * succeeded; the passes follow, ending with `End` exactly when the loop was
   * left normally, after which the shell is killed.
   */
  lemma WatcherThreadSends(bash: Bash, marker: string, s: Session, query: QueryState, intervalMs: nat,
                           watchDurationMs: Option<nat>, observations: seq<Observation>, killSucceeds: bool)
    ensures var run := WatcherThread(bash, marker, s, query, intervalMs, watchDurationMs, observations,
                                     killSucceeds);
      var setup := Exec(bash, marker, s, query.setupCommands).1;
      && Events(run.steps) == run.events
      && (run.events == [] <==> setup.Err?)
      && (setup.Err? ==> run.end == ExecPanicked && Killed !in run.steps)
      && (setup.Ok? ==> run.events[0] == SetupResult(IterationOutput(0, setup.value)) && PassEvents(run.events[1..]))
      && (End in run.events <==> run.end in {Finished, KillPanicked})
      && (End in run.events ==> run.steps[|run.steps| - 1] == Killed)
  {
    var run := WatcherThread(bash, marker, s, query, intervalMs, watchDurationMs, observations, killSucceeds);
    var e := Exec(bash, marker, s, query.setupCommands);
    if e.1.Err? {
      EventsOfSingle(Ran(query.setupCommands));
    } else {
      var first := SetupResult(IterationOutput(0, e.1.value));
      var rest := Passes(bash, marker, e.0, query.mainCommands, observations, watchDurationMs, intervalMs, 1,
                         killSucceeds);
      PassesEventsSent(bash, marker, e.0, query.mainCommands, observations, watchDurationMs, intervalMs, 1,
                       killSucceeds);
      PassesEnd(bash, marker, e.0, query.mainCommands, observations, watchDurationMs, intervalMs, 1,
                killSucceeds);
      SetupThenPasses(query.setupCommands, query.mainCommands, first, rest);
    }
  }

  /** The setup's report put in front of a run of the main loop. */
  lemma SetupThenPasses(setupCommands: string, command: string, first: OutputEvent, rest: Run)
    requires first.SetupResult? && Events(rest.steps) == rest.events && EndsAsSent(rest, command)
    ensures var run := Run([Ran(setupCommands), Sent(first)] + rest.steps, [first] + rest.events, rest.end,
                           rest.session);
      && Events(run.steps) == run.events
      && run.events[1..] == rest.events
      && (End in run.events <==> run.end in {Finished, KillPanicked})
      && (End in run.events ==> run.steps[|run.steps| - 1] == Killed)
  {
    var steps := [Ran(setupCommands), Sent(first)] + rest.steps;
    EventsOfPass(setupCommands, first, rest.steps);
    assert ([first] + rest.events)[1..] == rest.events;
    assert End in [first] + rest.events <==> End in rest.events;
    assert steps[|steps| - 1] == rest.steps[|rest.steps| - 1];
  }

  /** The passes are numbered from 1, and the thread obeys the loop's stop rule. */
  lemma WatcherThreadNumbering(bash: Bash, marker: string, s: Session, query: QueryState, intervalMs: nat,
                               watchDurationMs: Option<nat>, observations: seq<Observation>, killSucceeds: bool)
    ensures var run := WatcherThread(bash, marker, s, query, intervalMs, watchDurationMs, observations,
                                     killSucceeds);
      && Consecutive(IterationsOf(run.events), 1)
      && StoppedFor(run, observations, watchDurationMs)
  {
    var run := WatcherThread(bash, marker, s, query, intervalMs, watchDurationMs, observations, killSucceeds);
    var e := Exec(bash, marker, s, query.setupCommands);
    if e.1.Ok? {
      var first := SetupResult(IterationOutput(0, e.1.value));
      var rest := Passes(bash, marker, e.0, query.mainCommands, observations, watchDurationMs, intervalMs, 1,
                         killSucceeds);
      assert run.events == [first] + rest.events;
      PassesNumbered(bash, marker, e.0, query.mainCommands, observations, watchDurationMs, intervalMs, 1,
                     killSucceeds);
      PassesStopReason(bash, marker, e.0, query.mainCommands, observations, watchDurationMs, intervalMs, 1,
                       killSucceeds);
      IterationsAppend([first], rest.events);
      IterationsOfSingle(first);
    }
  }

  // ---------------------------------------------------------------------------
  // The thread itself

  /**
   * `run_watcher_thread`: the setup commands, then the watch loop, on a
   * watcher and a channel of their own. `observations[k]` is what the loop
   * reads after its pass `k + 1`.
   */
  method RunWatcherThread(watcher: Watcher, query: QueryState, intervalMs: nat, watchDurationMs: Option<nat>,
                          channel: Channel, observations: seq<Observation>, killSucceeds: bool)
    returns (steps: seq<Step>, end: RunEnd)
    modifies watcher, channel
    ensures var run := WatcherThread(watcher.bash, watcher.marker, old(watcher.State()), query, intervalMs,
                                     watchDurationMs, observations, killSucceeds);
      && steps == run.steps && end == run.end && watcher.State() == run.session
      && channel.queue == old(channel.queue) + run.events
  {
    ghost var s0 := watcher.State();
    var setup := watcher.ExecCmdAndFetchOutput(query.setupCommands);
    if setup.Err? {
      return [Ran(query.setupCommands)], ExecPanicked;
    }
    var first := SetupResult(IterationOutput(0, setup.value));
    channel.Send(first);
    ghost var s1 := watcher.State();
    var passes;
    passes, end := RunPasses(watcher, query.mainCommands, intervalMs, watchDurationMs, channel, observations,
                             killSucceeds);
    ghost var rest := Passes(watcher.bash, watcher.marker, s1, query.mainCommands, observations, watchDurationMs,
                             intervalMs, 1, killSucceeds);
    assert WatcherThread(watcher.bash, watcher.marker, s0, query, intervalMs, watchDurationMs, observations,
                         killSucceeds)
        == Run([Ran(query.setupCommands), Sent(first)] + rest.steps, [first] + rest.events, rest.end,
               rest.session);
    AppendAssoc(old(channel.queue), [first], rest.events);
    steps := [Ran(query.setupCommands), Sent(first)] + passes;
  }


  /** A run preceded by steps already taken and events already sent. */
  function Resumed(done: seq<Step>, sent: seq<OutputEvent>, rest: Run): Run {
    Run(done + rest.steps, sent + rest.events, rest.end, rest.session)
  }

  /** The watch loop of `run_watcher_thread`, from pass 1 on. */
  method RunPasses(watcher: Watcher, command: string, intervalMs: nat, watchDurationMs: Option<nat>,
                   channel: Channel, observations: seq<Observation>, killSucceeds: bool)
    returns (steps: seq<Step>, end: RunEnd)
    modifies watcher, channel
    ensures var run := Passes(watcher.bash, watcher.marker, old(watcher.State()), command, observations,
                              watchDurationMs, intervalMs, 1, killSucceeds);
      && steps == run.steps && end == run.end && watcher.State() == run.session
      && channel.queue == old(channel.queue) + run.events
  {
    steps := [];
    ghost var sent: seq<OutputEvent> := [];
    var iteration: nat := 1;
    var remaining := observations;
    ghost var whole := Passes(watcher.bash, watcher.marker, watcher.State(), command, observations,
                              watchDurationMs, intervalMs, 1, killSucceeds);
    assert whole == Resumed([], [], whole);
    while true
      invariant whole == Resumed(steps, sent, Passes(watcher.bash, watcher.marker, watcher.State(), command,
                                                     remaining, watchDurationMs, intervalMs, iteration,
                                                     killSucceeds))
      invariant channel.queue == old(channel.queue) + sent
      decreases |remaining|
    {
      var passSteps, passEvents, stopped := RunPass(watcher, command, intervalMs, watchDurationMs, channel,
                                                    remaining, iteration, killSucceeds, steps, sent, whole);
      AppendAssoc(old(channel.queue), sent, passEvents);
      steps := steps + passSteps;
      sent := sent + passEvents;
      if stopped.Some? {
        return steps, stopped.value;
      }
      remaining := remaining[1..];
      iteration := iteration + 1;
    }
  }

  /**
   * One pass of the watch loop: run the command and send its result, then
   * either stop (`stopped` says how) or sleep for the interval. `whole` is
   * the run of which `done` and `sent` are what happened before this pass.
   */
  method RunPass(watcher: Watcher, command: string, intervalMs: nat, watchDurationMs: Option<nat>,
                 channel: Channel, observations: seq<Observation>, iteration: nat, killSucceeds: bool,
                 ghost done: seq<Step>, ghost sent: seq<OutputEvent>, ghost whole: Run)
    returns (steps: seq<Step>, events: seq<OutputEvent>, stopped: Option<RunEnd>)
    requires whole == Resumed(done, sent, Passes(watcher.bash, watcher.marker, watcher.State(), command,
                                                 observations, watchDurationMs, intervalMs, iteration,
                                                 killSucceeds))
    modifies watcher, channel
    ensures stopped.Some? ==> whole == Run(done + steps, sent + events, stopped.value, watcher.State())
    ensures stopped.None? ==>
      && observations != []
      && whole == Resumed(done + steps, sent + events,
                          Passes(watcher.bash, watcher.marker, watcher.State(), command, observations[1..],
                                 watchDurationMs, intervalMs, iteration + 1, killSucceeds))
    ensures channel.queue == old(channel.queue) + events
  {
    ghost var run := Passes(watcher.bash, watcher.marker, watcher.State(), command, observations,
                            watchDurationMs, intervalMs, iteration, killSucceeds);
    var r := watcher.ExecCmdAndFetchOutput(command);
    assert run == AfterPass(watcher.bash, watcher.marker, watcher.State(), r, command, observations,
                            watchDurationMs, intervalMs, iteration, killSucceeds);
    if r.Err? {
      return [Ran(command)], [], Some(ExecPanicked);
    }
    var result := IterationResult(IterationOutput(iteration, r.value));
    channel.Send(result);
    if observations == [] {
      return [Ran(command), Sent(result)], [result], Some(StillRunning);
    }
    if StopsAfter(observations[0], watchDurationMs) {
      ghost var stop := KillSession(watcher.State(), killSucceeds);
      AppendAssoc(old(channel.queue), [result], [End]);
      assert [result] + [End] == [result, End];
      channel.Send(End);
      var killed := watcher.Kill(killSucceeds);
      assert (watcher.State(), killed) == stop;
      return [Ran(command), Sent(result), Sent(End), Killed], [result, End],
             Some(if killed.Pass? then Finished else KillPanicked);
    }
    // thread::sleep(interval)
    steps, events, stopped := [Ran(command), Sent(result), Slept(intervalMs)], [result], None;
    ghost var rest := Passes(watcher.bash, watcher.marker, watcher.State(), command, observations[1..],
                             watchDurationMs, intervalMs, iteration + 1, killSucceeds);
    AppendAssoc(done, steps, rest.steps);
    AppendAssoc(sent, events, rest.events);
  }
}
