/**
 * The query editor (src/bin/watcher_tui/tui/query.rs): two tabs holding the
 * setup and the main commands, and three modes. In NORMAL mode the arrows
 * change the tab, Enter goes to SUBMIT and `i` to EDITOR; in EDITOR mode the
 * keys go to the active tab's text area until Esc; Enter in SUBMIT hands the
 * texts back, and Ctrl+C gives up from anywhere.
 *
 * The text area widget is the environment: its editing is a given function
 * from the area's lines and a key to the new lines.
 */
module Query {
  import opened Wrappers
  import opened Keys
  import opened Text

  /** What the editor hands back: the setup commands and the main commands. */
  datatype QueryState = QueryState(setupCommands: string, mainCommands: string)

  // ---------------------------------------------------------------------------
  // Tabs

  /** `QueryEditTab`, in declaration order; `Main` is the default. */
  datatype EditTab = Setup | Main

  /** The largest `usize`. */
  const USIZE_MAX: nat := 0xFFFF_FFFF_FFFF_FFFF

  /** `self as usize`; `FromRepr` is its inverse. */
  function Index(t: EditTab): (i: nat)
    ensures FromRepr(i) == Some(t)
    ensures i <= USIZE_MAX
  {
    match t
    case Setup => 0
    case Main => 1
  }

  /** `QueryEditTab::from_repr`: the tab with that index, if there is one. */
  function FromRepr(i: nat): Option<EditTab> {
    if i == 0 then Some(Setup) else if i == 1 then Some(Main) else None
  }

  function SaturatingSub1(i: nat): nat {
    if i == 0 then 0 else i - 1
  }

  function SaturatingAdd1(i: nat): nat
    requires i <= USIZE_MAX
  {
    if i == USIZE_MAX then USIZE_MAX else i + 1
  }

  /** `previous`: one tab to the left, or the same tab at the left end. */
  function Previous(t: EditTab): (r: EditTab)
    ensures Index(r) == if Index(t) == 0 then 0 else Index(t) - 1
  {
    FromRepr(SaturatingSub1(Index(t))).GetOr(t)
  }

  /** `next`: one tab to the right, or the same tab at the right end. */
  function Next(t: EditTab): (r: EditTab)
    ensures Index(r) == if Index(t) == Index(Main) then Index(t) else Index(t) + 1
  {
    FromRepr(SaturatingAdd1(Index(t))).GetOr(t)
  }

  /** The four moves, and that two moves the same way end where one does. */
  lemma TabMoves(t: EditTab)
    ensures Previous(Setup) == Setup && Previous(Main) == Setup
    ensures Next(Setup) == Main && Next(Main) == Main
    ensures Previous(Previous(t)) == Previous(t) && Next(Next(t)) == Next(t)
  {
  }

  // ---------------------------------------------------------------------------
  // Keys

  datatype Mode = Normal | Editor | Submit

  /** What one key does, in the order `run_app` tries its match arms. */
  datatype KeyAction = Quit | SubmitTexts | SetMode(mode: Mode) | TabPrevious | TabNext | EditActive(key: Key) | Ignore

  /** The match of lines 121-181: the first arm whose pattern and guard hold. */
  function Dispatch(mode: Mode, key: Key): (a: KeyAction)
    // Ctrl+C gives up in every mode, and nothing else does
    ensures a == Quit <==> IsCtrlC(key)
    // Enter hands the texts back only in SUBMIT
    ensures a == SubmitTexts <==> mode == Submit && key == Plain(Enter)
    // the three mode changes
    ensures a.SetMode? ==>
      || (mode == Normal && key == Plain(Enter) && a.mode == Submit)
      || (mode != Editor && key == Plain(Char('i')) && a.mode == Editor)
      || (mode == Editor && key == Plain(Esc) && a.mode == Normal)
    ensures mode == Normal && key == Plain(Enter) ==> a == SetMode(Submit)
    ensures mode != Editor && key == Plain(Char('i')) ==> a == SetMode(Editor)
    ensures mode == Editor && key == Plain(Esc) ==> a == SetMode(Normal)
    // the arrows change the tab only in NORMAL
    ensures a == TabPrevious <==> mode == Normal && key == Plain(Left)
    ensures a == TabNext <==> mode == Normal && key == Plain(Right)
    // in EDITOR every other key, Enter, `i` and the arrows included, goes to the text area
    ensures mode == Editor && !IsCtrlC(key) && key != Plain(Esc) ==> a == EditActive(key)
    ensures a.EditActive? ==> mode == Editor && a.key == key
    // keys that match no arm change nothing, and there are none in EDITOR
    ensures a == Ignore ==>
      && mode != Editor && !IsCtrlC(key) && key != Plain(Enter) && key != Plain(Char('i'))
      && (mode == Normal ==> key != Plain(Left) && key != Plain(Right))
  {
    if key.modifiers == {Control} && key.code == Char('c') then Quit
    else if key.modifiers == {} && key.code == Enter && mode == Submit then SubmitTexts
    else if key.modifiers == {} && key.code == Enter && mode == Normal then SetMode(Submit)
    else if key.modifiers == {} && key.code == Char('i') && mode != Editor then SetMode(Editor)
    else if key.modifiers == {} && key.code == Esc && mode == Editor then SetMode(Normal)
    else if key.modifiers == {} && key.code == Left && mode == Normal then TabPrevious
    else if key.modifiers == {} && key.code == Right && mode == Normal then TabNext
    else if mode == Editor then EditActive(key)
    else assert mode.Normal? || mode.Submit?; Ignore
  }

  // ---------------------------------------------------------------------------
  // Text areas

  /** `TextArea::from(s.lines())`: the lines of `s`, and one empty line when there are none. */
  function AreaLines(s: string): (lines: seq<string>)
    ensures |lines| >= 1
  {
    var ls := Lines(s);
    if ls == [] then [""] else ls
  }

  /** Submitting an area that was never edited gives its text back, less one final newline. */
  lemma AreaRoundTrip(s: string)
    requires '\r' !in s
    ensures Join(AreaLines(s), "\n") == DropFinalNewline(s)
  {
    JoinLines(s);
  }

  /** What the text area widget makes of a key (`TextArea::input`). */
  type Edit = (seq<string>, Key) -> seq<string>

  /** The editor while `run_app` runs: mode, tab, and the lines of both text areas. */
  datatype Screen = Screen(mode: Mode, tab: EditTab, setupLines: seq<string>, mainLines: seq<string>)

  /** How `run_app` returned: `Ok(None)`, `Ok(Some(state))`, an error, or not yet. */
  datatype QueryExit = Cancelled | Submitted(state: QueryState) | Failed | Editing

  /** One loop pass: whether drawing worked, and what polling gave. */
  datatype QueryTick = QueryTick(drawOk: bool, poll: Poll)

  /** Lines 101-102: the areas start from the texts held so far. */
  function Opened(state: QueryState, mode: Mode, tab: EditTab): Screen {
    Screen(mode, tab, AreaLines(state.setupCommands), AreaLines(state.mainCommands))
  }

  /** What one key does to the screen. */
  function Apply(sc: Screen, key: Key, edit: Edit): (r: (Screen, QueryExit))
  {
    match Dispatch(sc.mode, key)
    case Quit => (sc, Cancelled)
    case SubmitTexts =>
      (sc, Submitted(QueryState(Join(sc.setupLines, "\n"), Join(sc.mainLines, "\n"))))
    case SetMode(m) => (sc.(mode := m), Editing)
    case TabPrevious => (sc.(tab := Previous(sc.tab)), Editing)
    case TabNext => (sc.(tab := Next(sc.tab)), Editing)
    case EditActive(k) =>
      (if sc.tab == Main then sc.(mainLines := edit(sc.mainLines, k)) else sc.(setupLines := edit(sc.setupLines, k)),
       Editing)
    case Ignore => (sc, Editing)
  }

  /** Lines 105-189, once. */
  function QueryStep(sc: Screen, t: QueryTick, edit: Edit): (r: (Screen, QueryExit)) {
    if !t.drawOk || t.poll.PollFailed? then (sc, Failed)
    else if t.poll.Input? && t.poll.event.KeyPress? then Apply(sc, t.poll.event.key, edit)
    else (sc, Editing)
  }

  /** `run_app` over a sequence of ticks, up to the first that returns. */
  function RunQuery(sc: Screen, ticks: seq<QueryTick>, edit: Edit): (r: (Screen, QueryExit))
    decreases |ticks|
  {
    if ticks == [] then (sc, Editing)
    else
      var first := QueryStep(sc, ticks[0], edit);
      if first.1 != Editing then first else RunQuery(first.0, ticks[1..], edit)
  }

  /**
   * One key changes the tab only in NORMAL mode; it changes a text area only
   * in EDITOR mode, and then only the active tab's; it enters SUBMIT only
   * from NORMAL; and a key that returns changes nothing.
   */
  lemma ApplyFrames(sc: Screen, key: Key, edit: Edit)
    ensures var (sc', exit) := Apply(sc, key, edit);
      && (sc'.tab != sc.tab ==> sc.mode == Normal && key in {Plain(Left), Plain(Right)})
      && (sc'.setupLines != sc.setupLines ==> sc.mode == Editor && sc.tab == Setup)
      && (sc'.mainLines != sc.mainLines ==> sc.mode == Editor && sc.tab == Main)
      && (sc'.mode == Submit && sc.mode != Submit ==> sc.mode == Normal && key == Plain(Enter))
      && (sc'.mode == Editor && sc.mode != Editor ==> key == Plain(Char('i')))
      && (exit != Editing ==> sc' == sc)
  {
  }

  /** A key whose code is not `i` never opens the editor. */
  predicate NoInsertKey(t: QueryTick) {
    !(t.poll.Input? && t.poll.event.KeyPress? && t.poll.event.key == Plain(Char('i')))
  }

  /**
   * Outside EDITOR mode, and with no `i` pressed, the text areas never change;
   * so what is submitted is the texts the editor was opened with, each less
   * one final newline.
   */
  lemma {:induction false} UneditedSubmitsOriginal(state: QueryState, mode: Mode, tab: EditTab,
                                                   ticks: seq<QueryTick>, edit: Edit)
    requires mode != Editor
    requires '\r' !in state.setupCommands && '\r' !in state.mainCommands
    requires forall i :: 0 <= i < |ticks| ==> NoInsertKey(ticks[i])
    ensures var (_, exit) := RunQuery(Opened(state, mode, tab), ticks, edit);
      exit.Submitted? ==> exit.state == QueryState(DropFinalNewline(state.setupCommands),
                                                   DropFinalNewline(state.mainCommands))
  {
    AreaRoundTrip(state.setupCommands);
    AreaRoundTrip(state.mainCommands);
    UneditedRun(Opened(state, mode, tab), ticks, edit);
  }

  lemma {:induction false} UneditedRun(sc: Screen, ticks: seq<QueryTick>, edit: Edit)
    requires sc.mode != Editor
    requires forall i :: 0 <= i < |ticks| ==> NoInsertKey(ticks[i])
    ensures var (sc', exit) := RunQuery(sc, ticks, edit);
      && sc'.mode != Editor && sc'.setupLines == sc.setupLines && sc'.mainLines == sc.mainLines
      && (exit.Submitted? ==> exit.state == QueryState(Join(sc.setupLines, "\n"), Join(sc.mainLines, "\n")))
    decreases |ticks|
  {
    if ticks != [] {
      var first := QueryStep(sc, ticks[0], edit);
      assert NoInsertKey(ticks[0]);
      if first.1 == Editing {
        assert forall i :: 0 <= i < |ticks[1..]| ==> ticks[1..][i] == ticks[i + 1];
        UneditedRun(first.0, ticks[1..], edit);
      }
    }
  }

  /** Ctrl+C ends the editor at once, in every mode, with nothing submitted. */
  lemma CtrlCQuits(sc: Screen, ticks: seq<QueryTick>, edit: Edit)
    requires ticks != [] && ticks[0].drawOk && ticks[0].poll.Input? && ticks[0].poll.event.KeyPress?
    requires IsCtrlC(ticks[0].poll.event.key)
    ensures RunQuery(sc, ticks, edit) == (sc, Cancelled)
  {
  }

  /**
   * What ended the editor: a submit is Enter pressed in SUBMIT mode, and it
   * hands back the areas' lines joined by newlines; a cancel is Ctrl+C.
   */
  lemma {:induction false} RunQueryEnds(sc: Screen, ticks: seq<QueryTick>, edit: Edit)
    ensures var (sc', exit) := RunQuery(sc, ticks, edit);
      && (exit.Submitted? ==>
            sc'.mode == Submit
            && exit.state == QueryState(Join(sc'.setupLines, "\n"), Join(sc'.mainLines, "\n"))
            && exists i :: 0 <= i < |ticks| && ticks[i] == QueryTick(true, Input(KeyPress(Plain(Enter)))))
      && (exit == Cancelled ==>
            exists i :: 0 <= i < |ticks| && ticks[i].poll.Input? && ticks[i].poll.event.KeyPress?
                        && IsCtrlC(ticks[i].poll.event.key))
    decreases |ticks|
  {
    if ticks != [] {
      var first := QueryStep(sc, ticks[0], edit);
      if first.1 == Editing {
        RunQueryEnds(first.0, ticks[1..], edit);
        var (_, exit) := RunQuery(sc, ticks, edit);
        if exit.Submitted? {
          var i :| 0 <= i < |ticks[1..]| && ticks[1..][i] == QueryTick(true, Input(KeyPress(Plain(Enter))));
          assert ticks[i + 1] == ticks[1..][i];
        }
        if exit == Cancelled {
          var i :| 0 <= i < |ticks[1..]| && ticks[1..][i].poll.Input? && ticks[1..][i].poll.event.KeyPress?
                   && IsCtrlC(ticks[1..][i].poll.event.key);
          assert ticks[i + 1] == ticks[1..][i];
        }
      } else if first.1.Submitted? {
        assert ticks[0].poll.event.key == Plain(Enter);
        assert ticks[0] == QueryTick(true, Input(KeyPress(Plain(Enter))));
      }
    }
  }

  // ---------------------------------------------------------------------------
  // Footer

  const QUIT_HINT: string := "Press Ctrl+C to quit"
  const SEPARATOR: string := " │ "

  /** `footer_widget`'s components: the mode's hints, then always the quit hint. */
  function FooterHints(mode: Mode): (hints: seq<string>)
    ensures |hints| == match mode case Normal => 3 case Editor => 2 case Submit => 1
    ensures hints[|hints| - 1] == QUIT_HINT
  {
    (match mode
     case Normal => ["◄ ► to change tab", "(I) to enter insert mode"]
     case Editor => ["↲ Esc to pause editor"]
     case Submit => [])
    + [QUIT_HINT]
  }

  /** The footer line: the hints joined by " │ "; it always ends with the quit hint. */
  function Footer(mode: Mode): (line: string)
    ensures |line| >= |QUIT_HINT| && line[|line| - |QUIT_HINT|..] == QUIT_HINT
  {
    var hints := FooterHints(mode);
    JoinSnocTail(hints[..|hints| - 1], QUIT_HINT, SEPARATOR);
    assert hints == hints[..|hints| - 1] + [QUIT_HINT];
    Join(hints, SEPARATOR)
  }

  /** Joining with one more piece ends in that piece. */
  lemma JoinSnocTail(pieces: seq<string>, last: string, sep: string)
    ensures |Join(pieces + [last], sep)| >= |last|
    ensures var j := Join(pieces + [last], sep); j[|j| - |last|..] == last
  {
    if pieces == [] {
      assert pieces + [last] == [last];
    } else {
      JoinSnoc(pieces, last, sep);
    }
  }

  // ---------------------------------------------------------------------------
  // The editor itself

  /** `QueryTui`. */
  class QueryTui {
    var state: QueryState
    var editingTab: EditTab
    var runningMode: Mode

    /** `QueryTui::new`: NORMAL mode on the main tab, the given command or nothing as main text, no setup text. */
    constructor New(commands: Option<string>)
      ensures state == QueryState("", commands.GetOr(""))
      ensures editingTab == Main && runningMode == Normal
    {
      state := QueryState("", commands.GetOr(""));
      editingTab := Main;
      runningMode := Normal;
    }

    /** `run_app`: the loop over the given ticks, with `edit` standing for the text area widget. */
    method RunApp(ticks: seq<QueryTick>, edit: Edit) returns (exit: QueryExit)
      modifies this
      ensures var (sc, e) := RunQuery(Opened(old(state), old(runningMode), old(editingTab)), ticks, edit);
        && exit == e && runningMode == sc.mode && editingTab == sc.tab
        && (e.Submitted? ==> state == e.state)
    {
      var setupTextarea := AreaLines(state.setupCommands);
      var mainTextarea := AreaLines(state.mainCommands);
      ghost var whole := RunQuery(Opened(state, runningMode, editingTab), ticks, edit);
      var k := 0;
      while k < |ticks|
        invariant 0 <= k <= |ticks|
        invariant whole == RunQuery(Screen(runningMode, editingTab, setupTextarea, mainTextarea), ticks[k..], edit)
      {
        assert ticks[k..][0] == ticks[k] && ticks[k..][1..] == ticks[k + 1..];
        var tick := ticks[k];
        if !tick.drawOk || tick.poll.PollFailed? {
          return Failed;
        }
        if tick.poll.Input? && tick.poll.event.KeyPress? {
          var key := tick.poll.event.key;
          match Dispatch(runningMode, key)
          case Quit =>
            return Cancelled;
          case SubmitTexts =>
            state := QueryState(Join(setupTextarea, "\n"), Join(mainTextarea, "\n"));
            return Submitted(state);
          case SetMode(m) =>
            runningMode := m;
          case TabPrevious =>
            editingTab := Previous(editingTab);
          case TabNext =>
            editingTab := Next(editingTab);
          case EditActive(_) =>
            if editingTab == Main {
              mainTextarea := edit(mainTextarea, key);
            } else {
              setupTextarea := edit(setupTextarea, key);
            }
          case Ignore =>
        }
        k := k + 1;
      }
      return Editing;
    }
  }
}
