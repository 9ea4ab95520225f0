/**
 * The display side of the watcher (src/bin/watcher_tui/tui/watcher.rs,
 * `WatcherTui`), without the drawing: on every tick it takes at most one
 * event from the channel and shows it, returns on `End`, and raises the
 * shared close flag on Ctrl+C.
 *
 * The other thread is the environment: each tick says which events it sent
 * since the previous tick, whether drawing worked, and what polling the
 * terminal gave.
 */
module Consumer {
  import opened Wrappers
  import opened Keys
  import opened Producer
  import opened Shell
  import opened Schedule
  import opened Query

  /** The shared `AtomicBool` that asks the watcher thread to stop. */
  class CloseFlag {
    var raised: bool

    constructor ()
      ensures !raised
    {
      raised := false;
    }

    /** `store(v, Ordering::Release)`. */
    method Store(v: bool)
      modifies this
      ensures raised == v
    {
      raised := v;
    }
  }

  /**
   * One pass of `run_app`'s loop: the events the watcher thread sent since
   * the previous pass, whether `terminal.draw` worked, and the poll.
   */
  datatype Tick = Tick(arrivals: seq<OutputEvent>, drawOk: bool, poll: Poll)

  /** The displayed result, the events waiting in the channel, and the close flag. */
  datatype ViewState = ViewState(current: IterationOutput, queue: seq<OutputEvent>, closeFlag: bool)

  /** Why `run_app` returned: `End` (`Ok`), a terminal error (`Err`), or not yet. */
  datatype Stop = EndReceived | IoFailed | Running

  /** What some ticks did: the view after them, the events taken, the stop, and the ticks used. */
  datatype Consumption = Consumption(view: ViewState, taken: seq<OutputEvent>, stop: Stop, used: nat)

  /** Ctrl+C, as the consumer recognises it. */
  predicate IsCtrlCPoll(p: Poll) {
    p.Input? && p.event.KeyPress? && IsCtrlC(p.event.key)
  }

  /** What a tick taking `e` from the channel shows: the result it carries, or `current` for `End`. */
  function Shown(current: IterationOutput, e: OutputEvent): IterationOutput {
    if e.End? then current else e.result
  }

  /** Lines 59-81 of `run_app`, once. */
  function TickStep(v: ViewState, t: Tick): (c: Consumption)
    ensures c.used == 1 && |c.taken| <= 1
  {
    var q := v.queue + t.arrivals;
    if !t.drawOk then Consumption(ViewState(v.current, q, v.closeFlag), [], IoFailed, 1)
    else if q != [] && q[0] == End then Consumption(ViewState(v.current, q[1..], v.closeFlag), [End], EndReceived, 1)
    else
      var taken := if q == [] then [] else [q[0]];
      var current := if q == [] then v.current else q[0].result;
      var rest := if q == [] then [] else q[1..];
      if t.poll.PollFailed? then Consumption(ViewState(current, rest, v.closeFlag), taken, IoFailed, 1)
      else Consumption(ViewState(current, rest, v.closeFlag || IsCtrlCPoll(t.poll)), taken, Running, 1)
  }

  /** `run_app` over a sequence of ticks, up to the first one that returns. */
  function RunTicks(v: ViewState, ticks: seq<Tick>): (c: Consumption)
    ensures c.used <= |ticks| && |c.taken| <= c.used
    ensures c.stop == Running ==> c.used == |ticks|
    ensures c.stop != Running ==> 1 <= c.used
    decreases |ticks|
  {
    if ticks == [] then Consumption(v, [], Running, 0)
    else
      var first := TickStep(v, ticks[0]);
      if first.stop != Running then first
      else
        var rest := RunTicks(first.view, ticks[1..]);
        Consumption(rest.view, first.taken + rest.taken, rest.stop, 1 + rest.used)
  }

  /** The events the watcher thread sent during some ticks, in order. */
  function Arrivals(ticks: seq<Tick>): seq<OutputEvent> {
    if ticks == [] then [] else ticks[0].arrivals + Arrivals(ticks[1..])
  }

  /** Whether one of the ticks polled Ctrl+C. */
  predicate CtrlCIn(ticks: seq<Tick>) {
    exists i :: 0 <= i < |ticks| && IsCtrlCPoll(ticks[i].poll)
  }

  /** What the display shows after taking `events`, one at a time, starting from `current`. */
  function LastShown(current: IterationOutput, events: seq<OutputEvent>): IterationOutput
    decreases |events|
  {
    if events == [] then current else LastShown(Shown(current, events[0]), events[1..])
  }

  // ---------------------------------------------------------------------------
  // One tick

  /** A tick takes at most one event, the oldest one. */
  lemma TickTakesOldest(v: ViewState, t: Tick)
    ensures var c := TickStep(v, t);
      |c.taken| <= 1 && c.taken + c.view.queue == v.queue + t.arrivals
  {
    var q := v.queue + t.arrivals;
    if t.drawOk && q != [] && q[0] != End {
      assert [q[0]] + q[1..] == q;
    }
  }

  /** The event taken replaces what is shown wholesale; an empty channel leaves the display as it was. */
  lemma TickShows(v: ViewState, t: Tick)
    ensures var c := TickStep(v, t);
      && (c.taken == [] ==> c.view.current == v.current)
      && (c.taken != [] ==> c.view.current == Shown(v.current, c.taken[0]))
  {
  }

  /** A tick returns normally exactly when it takes `End`, and with an error exactly when drawing or polling failed. */
  lemma TickStops(v: ViewState, t: Tick)
    ensures var c := TickStep(v, t);
      && (c.stop == EndReceived <==> End in c.taken)
      && (End in c.taken ==> c.taken == [End])
      && (c.stop == IoFailed <==> !t.drawOk || (t.poll.PollFailed? && End !in c.taken))
  {
  }

  /** Only Ctrl+C raises the close flag, and nothing lowers it. */
  lemma TickCloseFlag(v: ViewState, t: Tick)
    ensures var c := TickStep(v, t);
      && (v.closeFlag ==> c.view.closeFlag)
      && (c.view.closeFlag <==> v.closeFlag || (c.stop == Running && IsCtrlCPoll(t.poll)))
  {
  }

  // ---------------------------------------------------------------------------
  // Many ticks

  lemma {:induction false} ArrivalsAppend(a: seq<Tick>, b: seq<Tick>)
    ensures Arrivals(a + b) == Arrivals(a) + Arrivals(b)
    decreases |a|
  {
    if a == [] {
      assert a + b == b;
    } else {
      assert (a + b)[0] == a[0];
      assert (a + b)[1..] == a[1..] + b;
      ArrivalsAppend(a[1..], b);
    }
  }

  /** The arrivals of the first `n + 1` ticks: the first tick's, then those of the next `n`. */
  lemma ArrivalsTake(ticks: seq<Tick>, n: nat)
    requires n < |ticks|
    ensures Arrivals(ticks[..n + 1]) == ticks[0].arrivals + Arrivals(ticks[1..][..n])
  {
    assert ticks[..n + 1] == [ticks[0]] + ticks[1..][..n];
    ArrivalsAppend([ticks[0]], ticks[1..][..n]);
    assert [ticks[0]][1..] == [];
  }

  /** Ctrl+C among the first `n + 1` ticks: on the first one, or among the next `n`. */
  lemma CtrlCTake(ticks: seq<Tick>, n: nat)
    requires n < |ticks|
    ensures CtrlCIn(ticks[..n + 1]) <==> IsCtrlCPoll(ticks[0].poll) || CtrlCIn(ticks[1..][..n])
  {
    var used := ticks[..n + 1];
    var later := ticks[1..][..n];
    if CtrlCIn(used) && !IsCtrlCPoll(ticks[0].poll) {
      var i :| 0 <= i < |used| && IsCtrlCPoll(used[i].poll);
      assert used[i] == later[i - 1];
    }
    if CtrlCIn(later) {
      var i :| 0 <= i < |later| && IsCtrlCPoll(later[i].poll);
      assert used[i + 1] == later[i];
    }
    if IsCtrlCPoll(ticks[0].poll) {
      assert used[0] == ticks[0];
    }
  }

  /** Ctrl+C among all the ticks: on the first one, or among the rest. */
  lemma CtrlCCons(ticks: seq<Tick>)
    requires ticks != []
    ensures CtrlCIn(ticks) <==> IsCtrlCPoll(ticks[0].poll) || CtrlCIn(ticks[1..])
  {
    CtrlCTake(ticks, |ticks| - 1);
    assert ticks[..|ticks|] == ticks;
    assert ticks[1..][..|ticks| - 1] == ticks[1..];
  }


  /**
   * The channel is first in, first out: what the display took, followed by
   * what still waits, is what was waiting plus what arrived, and it took at
   * most one event per tick.
   */
  lemma {:induction false} RunTicksFifo(v: ViewState, ticks: seq<Tick>)
    ensures var c := RunTicks(v, ticks);
      && c.taken + c.view.queue == v.queue + Arrivals(ticks[..c.used])
      && |c.taken| <= c.used
    decreases |ticks|, 1
  {
    if ticks != [] {
      var first := TickStep(v, ticks[0]);
      TickTakesOldest(v, ticks[0]);
      if first.stop == Running {
        RunTicksFifoOn(v, ticks);
      } else {
        ArrivalsTake(ticks, 0);
        assert Arrivals(ticks[1..][..0]) == [];
      }
    } else {
      assert ticks[..0] == [];
    }
  }

  lemma {:induction false} RunTicksFifoOn(v: ViewState, ticks: seq<Tick>)
    requires ticks != [] && TickStep(v, ticks[0]).stop == Running
    ensures var c := RunTicks(v, ticks);
      && c.taken + c.view.queue == v.queue + Arrivals(ticks[..c.used])
      && |c.taken| <= c.used
    decreases |ticks|, 0
  {
    var first := TickStep(v, ticks[0]);
    TickTakesOldest(v, ticks[0]);
    var rest := RunTicks(first.view, ticks[1..]);
    RunTicksFifo(first.view, ticks[1..]);
    ArrivalsTake(ticks, rest.used);
    QueueCompose(v.queue, ticks[0].arrivals, first.taken, first.view.queue, rest.taken, rest.view.queue,
                 Arrivals(ticks[1..][..rest.used]));
  }

  /** Two FIFO steps in a row make one: what both took, then what is left, is what waited plus both arrivals. */
  lemma QueueCompose(waiting: seq<OutputEvent>, arrived: seq<OutputEvent>, taken: seq<OutputEvent>,
                     between: seq<OutputEvent>, takenNext: seq<OutputEvent>, left: seq<OutputEvent>,
                     arrivedNext: seq<OutputEvent>)
    requires taken + between == waiting + arrived
    requires takenNext + left == between + arrivedNext
    ensures (taken + takenNext) + left == waiting + (arrived + arrivedNext)
  {
    AppendAssoc(taken, takenNext, left);
    AppendAssoc(taken, between, arrivedNext);
    AppendAssoc(waiting, arrived, arrivedNext);
  }

  /**
   * Only `End` makes the display return normally; it is the last event
   * taken, and nothing is taken after it.
   */
  lemma {:induction false} RunTicksEnd(v: ViewState, ticks: seq<Tick>)
    ensures var c := RunTicks(v, ticks);
      && (c.stop == EndReceived <==> End in c.taken)
      && (End in c.taken ==> c.taken[|c.taken| - 1] == End && End !in c.taken[..|c.taken| - 1])
    decreases |ticks|
  {
    if ticks != [] {
      var first := TickStep(v, ticks[0]);
      TickStops(v, ticks[0]);
      if first.stop == Running {
        var rest := RunTicks(first.view, ticks[1..]);
        RunTicksEnd(first.view, ticks[1..]);
        EndStaysLast(first.taken, rest.taken);
      } else if End in first.taken {
        assert first.taken[..0] == [];
      }
    }
  }

  /** Taking events without `End` before events that end in `End` keeps `End` last and single. */
  lemma EndStaysLast(before: seq<OutputEvent>, after: seq<OutputEvent>)
    requires End !in before
    requires End in after ==> after[|after| - 1] == End && End !in after[..|after| - 1]
    ensures var taken := before + after;
      && (End in taken <==> End in after)
      && (End in taken ==> taken[|taken| - 1] == End && End !in taken[..|taken| - 1])
  {
    var taken := before + after;
    if End in after {
      assert taken[..|taken| - 1] == before + after[..|after| - 1];
    }
  }

  lemma NotInConcat(e: OutputEvent, a: seq<OutputEvent>, b: seq<OutputEvent>)
    ensures e in a + b <==> e in a || e in b
  {
  }

  /** A tick whose drawing or polling failed. */
  predicate TickFailed(t: Tick) {
    !t.drawOk || t.poll.PollFailed?
  }

  /** Every tick drew its frame and polled without an error. */
  predicate AllTicksSucceed(ticks: seq<Tick>) {
    forall i :: 0 <= i < |ticks| ==> !TickFailed(ticks[i])
  }

  lemma AllTicksSucceedCons(ticks: seq<Tick>)
    requires ticks != []
    ensures AllTicksSucceed(ticks) <==>
              !TickFailed(ticks[0]) && AllTicksSucceed(ticks[1..])
  {
    if !TickFailed(ticks[0]) && AllTicksSucceed(ticks[1..]) {
      forall i | 1 <= i < |ticks| ensures !TickFailed(ticks[i]) {
        assert ticks[i] == ticks[1..][i - 1];
      }
    }
  }

  /**
   * An error return comes from the last tick's drawing or polling; the
   * display keeps running through every tick otherwise, Ctrl+C included.
   */
  lemma {:induction false} RunTicksFailure(v: ViewState, ticks: seq<Tick>)
    ensures var c := RunTicks(v, ticks);
      && (c.stop == IoFailed ==> 1 <= c.used && TickFailed(ticks[c.used - 1]))
      && (c.stop == Running <==> c.used == |ticks| && End !in c.taken && AllTicksSucceed(ticks))
    decreases |ticks|, 1
  {
    if ticks != [] {
      var first := TickStep(v, ticks[0]);
      TickStops(v, ticks[0]);
      AllTicksSucceedCons(ticks);
      if first.stop == Running {
        RunTicksFailureOn(v, ticks);
      }
    }
  }

  lemma {:induction false} RunTicksFailureOn(v: ViewState, ticks: seq<Tick>)
    requires ticks != [] && TickStep(v, ticks[0]).stop == Running
    ensures var c := RunTicks(v, ticks);
      && (c.stop == IoFailed ==> 1 <= c.used && TickFailed(ticks[c.used - 1]))
      && (c.stop == Running <==> c.used == |ticks| && End !in c.taken && AllTicksSucceed(ticks))
    decreases |ticks|, 0
  {
    var first := TickStep(v, ticks[0]);
    TickStops(v, ticks[0]);
    AllTicksSucceedCons(ticks);
    var rest := RunTicks(first.view, ticks[1..]);
    assert RunTicks(v, ticks) == Consumption(rest.view, first.taken + rest.taken, rest.stop, 1 + rest.used);
    RunTicksFailure(first.view, ticks[1..]);
    NotInConcat(End, first.taken, rest.taken);
    if rest.stop == IoFailed {
      assert TickFailed(ticks[1..][rest.used - 1]);
      assert ticks[rest.used] == ticks[1..][rest.used - 1];
    }
  }

  /** The display shows the result of the last event it took, or what it showed before when it took none. */
  lemma {:induction false} RunTicksShows(v: ViewState, ticks: seq<Tick>)
    ensures var c := RunTicks(v, ticks);
      c.view.current == LastShown(v.current, c.taken)
    decreases |ticks|
  {
    if ticks != [] {
      var first := TickStep(v, ticks[0]);
      TickShows(v, ticks[0]);
      TickTakesOldest(v, ticks[0]);
      if first.stop == Running {
        var rest := RunTicks(first.view, ticks[1..]);
        RunTicksShows(first.view, ticks[1..]);
        if first.taken != [] {
          assert (first.taken + rest.taken)[1..] == rest.taken;
        } else {
          assert first.taken + rest.taken == rest.taken;
        }
      } else if first.taken != [] {
        assert first.taken[1..] == [];
      }
    }
  }

  /** The close flag only rises, only on Ctrl+C; on ticks that all ran through, it rose exactly when one polled Ctrl+C. */
  lemma {:induction false} RunTicksCloseFlag(v: ViewState, ticks: seq<Tick>)
    ensures var c := RunTicks(v, ticks);
      && (v.closeFlag ==> c.view.closeFlag)
      && (c.view.closeFlag ==> v.closeFlag || CtrlCIn(ticks[..c.used]))
      && (c.stop == Running ==> (c.view.closeFlag <==> v.closeFlag || CtrlCIn(ticks)))
    decreases |ticks|, 1
  {
    if ticks != [] {
      var first := TickStep(v, ticks[0]);
      TickCloseFlag(v, ticks[0]);
      if first.stop == Running {
        RunTicksCloseFlagOn(v, ticks);
      } else if first.view.closeFlag && !v.closeFlag {
        assert false;
      }
    }
  }

  lemma {:induction false} RunTicksCloseFlagOn(v: ViewState, ticks: seq<Tick>)
    requires ticks != [] && TickStep(v, ticks[0]).stop == Running
    ensures var c := RunTicks(v, ticks);
      && (v.closeFlag ==> c.view.closeFlag)
      && (c.view.closeFlag ==> v.closeFlag || CtrlCIn(ticks[..c.used]))
      && (c.stop == Running ==> (c.view.closeFlag <==> v.closeFlag || CtrlCIn(ticks)))
    decreases |ticks|, 0
  {
    var first := TickStep(v, ticks[0]);
    TickCloseFlag(v, ticks[0]);
    var rest := RunTicks(first.view, ticks[1..]);
    assert RunTicks(v, ticks) == Consumption(rest.view, first.taken + rest.taken, rest.stop, 1 + rest.used);
    RunTicksCloseFlag(first.view, ticks[1..]);
    CtrlCTake(ticks, rest.used);
    CtrlCCons(ticks);
  }


  // ---------------------------------------------------------------------------
  // Both threads

  /** `End` occurs at most once, and then as the last event. */
  predicate EndOnlyLast(events: seq<OutputEvent>) {
    forall i :: 0 <= i < |events| && events[i] == End ==> i == |events| - 1
  }

  /** The watcher thread sends `End` at most once, and last. */
  lemma ThreadSendsEndLast(bash: Bash, marker: string, s: Session, query: QueryState, intervalMs: nat,
                           watchDurationMs: Option<nat>, observations: seq<Observation>, killSucceeds: bool)
    ensures EndOnlyLast(WatcherThread(bash, marker, s, query, intervalMs, watchDurationMs, observations,
                                      killSucceeds).events)
  {
    var events := WatcherThread(bash, marker, s, query, intervalMs, watchDurationMs, observations,
                                killSucceeds).events;
    WatcherThreadSends(bash, marker, s, query, intervalMs, watchDurationMs, observations, killSucceeds);
    if events != [] {
      var passes := events[1..];
      forall i | 0 <= i < |events| && events[i] == End ensures i == |events| - 1 {
        assert i != 0;
        assert passes[i - 1] == End;
      }
    }
  }

  lemma {:induction false} ArrivalsPrefix(ticks: seq<Tick>, k: nat)
    requires k <= |ticks|
    ensures Arrivals(ticks) == Arrivals(ticks[..k]) + Arrivals(ticks[k..])
  {
    assert ticks == ticks[..k] + ticks[k..];
    ArrivalsAppend(ticks[..k], ticks[k..]);
  }

  /**
   * When the display returns normally, it has taken every event the watcher
   * thread sent, in order, nothing is left in the channel, and it shows what
   * the last of them carried; provided the thread sends `End` only last, as
   * `Producer.WatcherThreadSends` shows it does.
   */
  lemma DisplayTakesEverything(v: ViewState, ticks: seq<Tick>)
    requires v.queue == []
    requires EndOnlyLast(Arrivals(ticks))
    ensures var c := RunTicks(v, ticks);
      c.stop == EndReceived ==>
        && c.taken == Arrivals(ticks)
        && c.view.queue == []
        && c.view.current == LastShown(v.current, Arrivals(ticks))
  {
    var c := RunTicks(v, ticks);
    if c.stop == EndReceived {
      RunTicksFifo(v, ticks);
      RunTicksEnd(v, ticks);
      RunTicksShows(v, ticks);
      ArrivalsPrefix(ticks, c.used);
      assert v.queue + Arrivals(ticks[..c.used]) == Arrivals(ticks[..c.used]);
      EndTakenLast(Arrivals(ticks), Arrivals(ticks[..c.used]), Arrivals(ticks[c.used..]), c.taken, c.view.queue);
    }
  }

  /**
   * What was taken ends in `End`, and the events sent put `End` only last:
   * so what was taken is everything sent, and nothing waits behind it.
   */
  lemma EndTakenLast(sent: seq<OutputEvent>, early: seq<OutputEvent>, late: seq<OutputEvent>,
                     taken: seq<OutputEvent>, waiting: seq<OutputEvent>)
    requires sent == early + late && taken + waiting == early
    requires EndOnlyLast(sent) && End in taken && taken[|taken| - 1] == End
    ensures taken == sent && waiting == []
  {
    var n := |taken|;
    AppendAssoc(taken, waiting, late);
    assert sent[n - 1] == End;
  }

  /** A prefix of events in which `End` comes only last keeps that property. */
  lemma EndOnlyLastPrefix(events: seq<OutputEvent>, k: nat)
    requires k <= |events| && EndOnlyLast(events)
    ensures EndOnlyLast(events[..k])
    ensures End in events[..k] ==> k == |events|
  {
    forall i | 0 <= i < k && events[..k][i] == End ensures i == k - 1 {
      assert events[i] == End;
    }
    if End in events[..k] {
      var i :| 0 <= i < k && events[..k][i] == End;
      assert events[i] == End;
    }
  }

  /**
   * The two threads together: when the display, fed by the watcher thread
   * (whatever has arrived is a prefix of what the thread sends), returns
   * normally, it has taken exactly everything the thread sent and shows the
   * last result the thread reported.
   */
  lemma ThreadThenDisplay(bash: Bash, marker: string, s: Session, query: QueryState, intervalMs: nat,
                          watchDurationMs: Option<nat>, observations: seq<Observation>, killSucceeds: bool,
                          v: ViewState, ticks: seq<Tick>)
    requires v.queue == []
    requires var sent := WatcherThread(bash, marker, s, query, intervalMs, watchDurationMs, observations,
                                       killSucceeds).events;
      |Arrivals(ticks)| <= |sent| && Arrivals(ticks) == sent[..|Arrivals(ticks)|]
    ensures var sent := WatcherThread(bash, marker, s, query, intervalMs, watchDurationMs, observations,
                                      killSucceeds).events;
      var c := RunTicks(v, ticks);
      c.stop == EndReceived ==> c.taken == sent && c.view.current == LastShown(v.current, sent)
  {
    var sent := WatcherThread(bash, marker, s, query, intervalMs, watchDurationMs, observations,
                              killSucceeds).events;
    var k := |Arrivals(ticks)|;
    ThreadSendsEndLast(bash, marker, s, query, intervalMs, watchDurationMs, observations, killSucceeds);
    EndOnlyLastPrefix(sent, k);
    DisplayTakesEverything(v, ticks);
    var c := RunTicks(v, ticks);
    if c.stop == EndReceived {
      RunTicksEnd(v, ticks);
      assert End in sent[..k];
      assert sent[..k] == sent;
    }
  }

  // ---------------------------------------------------------------------------
  // The display itself

  /** `WatcherTui`, with its drawing left out. */
  class WatcherTui {
    const eventReceiver: Channel
    const shouldCloseWatcher: CloseFlag
    var currentEvent: IterationOutput

    function View(): ViewState
      reads this, eventReceiver, shouldCloseWatcher
    {
      ViewState(currentEvent, eventReceiver.queue, shouldCloseWatcher.raised)
    }

    /** `WatcherTui::new`: shows iteration 0 with no output yet. */
    constructor New(eventReceiver: Channel, shouldCloseWatcher: CloseFlag)
      ensures this.eventReceiver == eventReceiver && this.shouldCloseWatcher == shouldCloseWatcher
      ensures currentEvent == IterationOutput(0, "")
    {
      this.eventReceiver := eventReceiver;
      this.shouldCloseWatcher := shouldCloseWatcher;
      currentEvent := IterationOutput(0, "");
    }

    /** One pass of the loop in `run_app`; `stop` is `Running` when it does not return. */
    method RunTick(tick: Tick) returns (stop: Stop)
      modifies this, eventReceiver, shouldCloseWatcher
      ensures var c := TickStep(old(View()), tick);
        View() == c.view && stop == c.stop
    {
      // what the watcher thread sent meanwhile
      var i := 0;
      while i < |tick.arrivals|
        invariant 0 <= i <= |tick.arrivals|
        invariant eventReceiver.queue == old(eventReceiver.queue) + tick.arrivals[..i]
        invariant currentEvent == old(currentEvent) && shouldCloseWatcher.raised == old(shouldCloseWatcher.raised)
      {
        eventReceiver.Send(tick.arrivals[i]);
        assert tick.arrivals[..i + 1] == tick.arrivals[..i] + [tick.arrivals[i]];
        i := i + 1;
      }
      assert tick.arrivals[..i] == tick.arrivals;
      if !tick.drawOk {
        return IoFailed;
      }
      var event := eventReceiver.TryRecv();
      if event.Some? {
        match event.value
        case SetupResult(res) => currentEvent := res;
        case IterationResult(res) => currentEvent := res;
        case End => return EndReceived;
      }
      if tick.poll.PollFailed? {
        return IoFailed;
      }
      if tick.poll.Input? && tick.poll.event.KeyPress? && IsCtrlC(tick.poll.event.key) {
        shouldCloseWatcher.Store(true);
      }
      return Running;
    }

    /** `run_app` over the given ticks: returns at the first tick that ends it. */
    method RunApp(ticks: seq<Tick>) returns (stop: Stop, used: nat)
      modifies this, eventReceiver, shouldCloseWatcher
      ensures var c := RunTicks(old(View()), ticks);
        View() == c.view && stop == c.stop && used == c.used
    {
      var k := 0;
      ghost var taken: seq<OutputEvent> := [];
      ghost var whole := RunTicks(View(), ticks);
      while k < |ticks|
        invariant 0 <= k <= |ticks|
        invariant var rest := RunTicks(View(), ticks[k..]);
          whole == Consumption(rest.view, taken + rest.taken, rest.stop, k + rest.used)
      {
        ghost var before := View();
        ghost var first := TickStep(before, ticks[k]);
        assert ticks[k..][0] == ticks[k] && ticks[k..][1..] == ticks[k + 1..];
        stop := RunTick(ticks[k]);
        if stop != Running {
          assert taken + first.taken + [] == taken + first.taken;
          return stop, k + 1;
        }
        AppendAssoc(taken, first.taken, RunTicks(View(), ticks[k + 1..]).taken);
        taken := taken + first.taken;
        k := k + 1;
      }
      assert ticks[k..] == [];
      return Running, k;
    }
  }
}
