/**
 * The persistent bash session (src/models/watcher.rs).
 *
 * One long-lived bash process receives commands on its stdin; its stdout and
 * stderr are merged into one stream, which a reader buffers. After each
 * command the session writes `printf '<marker>'`, so that the marker is
 * printed right after the command's own output, and then consumes the buffer
 * up to the first occurrence of the marker.
 *
 * Bash itself is an oracle: given everything written to its stdin so far and
 * the next command, it either completes (printing the command's output and
 * then the marker), hangs after printing part of it, or exits.
 */
module Shell {
  import opened Wrappers
  import opened Text

  // ---------------------------------------------------------------------------
  // The end marker

  const MARKER_LENGTH: nat := 100

  /** rand's `Alphanumeric` draws from A-Z, a-z and 0-9: 62 characters. */
  const ALPHANUMERIC_COUNT: nat := 62

  /** The `k`-th character of "ABC...XYZabc...xyz012...789". */
  function AlphanumericChar(k: nat): char
    requires k < ALPHANUMERIC_COUNT
  {
    if k < 26 then ('A' as int + k) as char
    else if k < 52 then ('a' as int + (k - 26)) as char
    else ('0' as int + (k - 52)) as char
  }

  /** An ASCII letter or digit. */
  predicate IsAlphanumeric(c: char) {
    'A' <= c <= 'Z' || 'a' <= c <= 'z' || '0' <= c <= '9'
  }

  predicate IsMarker(m: string) {
    |m| == MARKER_LENGTH && forall i :: 0 <= i < |m| ==> IsAlphanumeric(m[i])
  }

  /** `Alphanumeric` tries the top six bits of a 32-bit draw as an index and rejects 62 and 63. */
  function SampleIndex(w: bv32): nat {
    (w >> 26) as nat
  }

  /** How many of the draws `Alphanumeric` accepts: at most all of them, and all when none is rejected. */
  function Accepted(words: seq<bv32>): (n: nat)
    ensures n <= |words|
    ensures (forall i :: 0 <= i < |words| ==> SampleIndex(words[i]) < ALPHANUMERIC_COUNT) ==> n == |words|
  {
    if words == [] then 0
    else (if SampleIndex(words[0]) < ALPHANUMERIC_COUNT then 1 else 0) + Accepted(words[1..])
  }

  function Min(a: nat, b: nat): nat {
    if a < b then a else b
  }

  /**
   * `rng.sample_iter(Alphanumeric).take(n)` over the given stream of 32-bit
   * draws: the first `n` accepted characters.
   */
  function SampleAlphanumeric(words: seq<bv32>, n: nat): (s: string)
    ensures |s| == Min(n, Accepted(words))
    ensures forall i :: 0 <= i < |s| ==> IsAlphanumeric(s[i])
    decreases |words|
  {
    if n == 0 || words == [] then ""
    else if SampleIndex(words[0]) < ALPHANUMERIC_COUNT then
      [AlphanumericChar(SampleIndex(words[0]))] + SampleAlphanumeric(words[1..], n - 1)
    else
      SampleAlphanumeric(words[1..], n)
  }

  /** The marker drawn from a stream of 32-bit draws: its first 100 accepted characters. */
  function CmdEndMarker(seededWords: seq<bv32>): string {
    SampleAlphanumeric(seededWords, MARKER_LENGTH)
  }

  /**
   * Streams of draws long enough to yield a whole marker. The generator's
   * stream is unbounded, so `take(100)` always finishes; a finite prefix
   * holding 100 accepted draws stands for it.
   */
  type SeededWords = w: seq<bv32> | Accepted(w) >= MARKER_LENGTH
    witness seq(MARKER_LENGTH, _ => 0 as bv32)

  /**
   * The draws of `StdRng::seed_from_u64(5)`. Its ChaCha stream is not
   * computed here, so which draws they are is left unspecified; but it is
   * one value, and it yields a whole marker.
   */
  const SEEDED_WORDS: SeededWords

  /** `CMD_END_MARKER`: a lazily initialised static, so one marker serves every session. */
  const CMD_END_MARKER: string := CmdEndMarker(SEEDED_WORDS)

  /** Given enough accepted draws the marker is 100 alphanumeric characters. */
  lemma MarkerShape(seededWords: seq<bv32>)
    requires Accepted(seededWords) >= MARKER_LENGTH
    ensures IsMarker(CmdEndMarker(seededWords))
  {
  }

  /** The marker every watcher uses is 100 alphanumeric characters, so in particular not empty. */
  lemma CmdEndMarkerShape()
    ensures IsMarker(CMD_END_MARKER) && CMD_END_MARKER != []
  {
    MarkerShape(SEEDED_WORDS);
  }

  /** printf prints a format without '%', '\' or the closing quote verbatim. */
  predicate PrintsLiterally(format: string) {
    '%' !in format && '\\' !in format && '\'' !in format
  }

  lemma MarkerPrintsLiterally(m: string)
    requires IsMarker(m)
    ensures PrintsLiterally(m)
  {
    forall c | c in m ensures c != '%' && c != '\\' && c != '\'' {
      var i :| 0 <= i < |m| && m[i] == c;
      assert IsAlphanumeric(m[i]);
    }
  }

  // ---------------------------------------------------------------------------
  // The session

  /** What bash prints after receiving a command and the printf line. */
  datatype Reply =
    | Completes(output: string)  // the command's output, followed by the printed marker
    | Hangs(partial: string)     // output so far; nothing more before the reader gives up
    | Exits(partial: string)     // output so far, then the stream ends

  /** Bash: (everything written to stdin so far, the next command) -> its reply. */
  type Bash = (string, string) -> Reply

  datatype Error = SpawnFailed | BrokenPipe | Timeout | EndOfStream | KillFailed

  /** The session's observable state: stdin written so far, unread output, process alive. */
  datatype Session = Session(stdin: string, buffer: string, alive: bool)

  /** The text that bash shell receives before every read: the command, then the printf line. */
  function Written(command: string, marker: string): string {
    command + "\n" + "printf '" + marker + "'" + "\n"
  }

  function Printed(reply: Reply, marker: string): string {
    match reply
    case Completes(out) => out + marker
    case Hangs(partial) => partial
    case Exits(partial) => partial
  }

  /**
   * `exec_cmd_and_fetch_output`: write the command and the printf line, then
   * read the merged output up to the first occurrence of the marker.
   */
  function Exec(bash: Bash, marker: string, s: Session, command: string): (r: (Session, Result<string, Error>))
    ensures !s.alive ==> r == (s, Err(BrokenPipe))
    ensures s.alive ==> r.0.stdin == s.stdin + Written(command, marker)
    ensures s.alive ==> r.0.alive == !bash(s.stdin, command).Exits?
    ensures r.1.Ok? ==> s.buffer + Printed(bash(s.stdin, command), marker) == r.1.value + marker + r.0.buffer
    ensures r.1.Ok? ==> forall j: nat :: j < |r.1.value| ==>
      !OccursAt(s.buffer + Printed(bash(s.stdin, command), marker), marker, j)
    ensures s.alive && r.1.Err? ==> r.0.buffer == s.buffer + Printed(bash(s.stdin, command), marker)
    ensures s.alive && r.1.Err? ==> r.1.error == (if bash(s.stdin, command).Exits? then EndOfStream else Timeout)
  {
    if !s.alive then (s, Err(BrokenPipe))
    else
      var reply := bash(s.stdin, command);
      var stdin := s.stdin + Written(command, marker);
      var buffer := s.buffer + Printed(reply, marker);
      match ReadUntil(buffer, marker)
      case Some((captured, rest)) => (Session(stdin, rest, !reply.Exits?), Ok(captured))
      case None => (Session(stdin, buffer, !reply.Exits?), Err(if reply.Exits? then EndOfStream else Timeout))
  }

  /** `kill`: on success the process is gone; a failure is passed on. */
  function KillSession(s: Session, killSucceeds: bool): (r: (Session, Outcome<Error>))
    ensures r.1.Pass? <==> killSucceeds
    ensures r.1.Fail? ==> r.1.error == KillFailed && r.0 == s
    ensures r.0.stdin == s.stdin && r.0.buffer == s.buffer
    ensures r.1.Pass? ==> !r.0.alive
  {
    if killSucceeds then (s.(alive := false), Pass) else (s, Fail(KillFailed))
  }

  /** The shell setup that `new` runs through the same path as every command. */
  const INIT_COMMANDS: string :=
    "\n            shopt -s expand_aliases;\n            source ~/.bashrc;\n        "

  // ---------------------------------------------------------------------------
  // Properties of the framing

  /** A successful capture never contains the marker. */
  lemma {:induction false} CaptureHasNoMarker(bash: Bash, marker: string, s: Session, command: string)
    requires marker != []
    requires Exec(bash, marker, s, command).1.Ok?
    ensures !Contains(Exec(bash, marker, s, command).1.value, marker)
  {
    var buffer := s.buffer + Printed(bash(s.stdin, command), marker);
    CaptureExcludesNeedle(buffer, marker);
  }

  /** On a live shell, a command fails exactly when the marker is nowhere in the unread output. */
  lemma ExecFailsWithoutMarker(bash: Bash, marker: string, s: Session, command: string)
    requires s.alive
    ensures Exec(bash, marker, s, command).1.Ok? <==>
      Contains(s.buffer + Printed(bash(s.stdin, command), marker), marker)
  {
    var buffer := s.buffer + Printed(bash(s.stdin, command), marker);
    assert ReadUntil(buffer, marker).None? <==> !Contains(buffer, marker);
  }

  /** A command that completes always yields a capture. */
  lemma {:induction false} CompletedCommandSucceeds(bash: Bash, marker: string, s: Session, command: string)
    requires s.alive && bash(s.stdin, command).Completes?
    ensures Exec(bash, marker, s, command).1.Ok?
    ensures Exec(bash, marker, s, command).0.alive
  {
    var buffer := s.buffer + Printed(bash(s.stdin, command), marker);
    assert buffer == (s.buffer + bash(s.stdin, command).output) + marker;
    assert buffer[|buffer| - |marker|..|buffer|] == marker;
    assert OccursAt(buffer, marker, |buffer| - |marker|);
  }

  /**
   * Starting from an empty buffer, a completed command whose own output does
   * not contain an unbordered marker is captured exactly, and nothing is left
   * over for the next command.
   */
  lemma {:induction false} CapturesOwnOutput(bash: Bash, marker: string, s: Session, command: string)
    requires s.alive && s.buffer == []
    requires marker != [] && Unbordered(marker)
    requires bash(s.stdin, command).Completes? && !Contains(bash(s.stdin, command).output, marker)
    ensures Exec(bash, marker, s, command) ==
      (Session(s.stdin + Written(command, marker), [], true), Ok(bash(s.stdin, command).output))
  {
    var out := bash(s.stdin, command).output;
    ReadsOwnOutput(out, marker);
    assert s.buffer + Printed(bash(s.stdin, command), marker) == out + marker;
  }

  /** Two consecutive commands each capture only their own output. */
  lemma {:induction false} ConsecutiveCaptures(bash: Bash, marker: string, s: Session, first: string, second: string)
    requires s.alive && s.buffer == []
    requires marker != [] && Unbordered(marker)
    requires bash(s.stdin, first).Completes? && !Contains(bash(s.stdin, first).output, marker)
    requires var s1 := Exec(bash, marker, s, first).0;
      bash(s1.stdin, second).Completes? && !Contains(bash(s1.stdin, second).output, marker)
    ensures var (s1, r1) := Exec(bash, marker, s, first);
      var (s2, r2) := Exec(bash, marker, s1, second);
      r1 == Ok(bash(s.stdin, first).output) && r2 == Ok(bash(s1.stdin, second).output) && s2.buffer == []
  {
    CapturesOwnOutput(bash, marker, s, first);
    CapturesOwnOutput(bash, marker, Exec(bash, marker, s, first).0, second);
  }

  /** A hung command whose partial output holds no marker times out, and keeps its output buffered. */
  lemma {:induction false} HungCommandTimesOut(bash: Bash, marker: string, s: Session, command: string)
    requires s.alive && bash(s.stdin, command).Hangs?
    requires !Contains(s.buffer + bash(s.stdin, command).partial, marker)
    ensures Exec(bash, marker, s, command) ==
      (Session(s.stdin + Written(command, marker), s.buffer + bash(s.stdin, command).partial, true), Err(Timeout))
  {
    var buffer := s.buffer + Printed(bash(s.stdin, command), marker);
    assert buffer == s.buffer + bash(s.stdin, command).partial;
    assert ReadUntil(buffer, marker).None?;
    assert Exec(bash, marker, s, command).1 == Err(Timeout);
    assert Exec(bash, marker, s, command).0.buffer == buffer;
    assert Exec(bash, marker, s, command).0.alive;
  }

  // ---------------------------------------------------------------------------
  // The session object

  class Watcher {
    const bash: Bash
    const marker: string
    /** Timeout of the output reader, in milliseconds. */
    const timeoutMs: nat
    /** Environment of the bash process. */
    const env: seq<(string, string)>
    var stdin: string
    var buffer: string
    var alive: bool

    function State(): Session
      reads this
    {
      Session(stdin, buffer, alive)
    }

    /** The freshly spawned process, before its setup commands ran. */
    constructor Spawned(bash: Bash, marker: string, timeoutMs: nat, env: seq<(string, string)>)
      ensures this.bash == bash && this.marker == marker && this.timeoutMs == timeoutMs && this.env == env
      ensures State() == Session("", "", true)
    {
      this.bash := bash;
      this.marker := marker;
      this.timeoutMs := timeoutMs;
      this.env := env;
      stdin := "";
      buffer := "";
      alive := true;
    }

    /**
     * `Watcher::new`: spawn bash with `LC_ALL=C` added to the inherited
     * environment, then run the setup commands; either step can fail.
     */
    static method New(commandTimeout: nat, inheritedEnv: seq<(string, string)>, spawnSucceeds: bool,
                      bash: Bash)
      returns (r: Result<Watcher, Error>)
      ensures !spawnSucceeds ==> r == Err(SpawnFailed)
      ensures spawnSucceeds ==>
        var (s, init) := Exec(bash, CMD_END_MARKER, Session("", "", true), INIT_COMMANDS);
        && (r.Ok? <==> init.Ok?)
        && (r.Err? ==> r.error == init.error)
        && (r.Ok? ==> fresh(r.value) && r.value.State() == s && r.value.bash == bash
                      && r.value.marker == CMD_END_MARKER && IsMarker(r.value.marker)
                      && r.value.timeoutMs == commandTimeout
                      && r.value.env == inheritedEnv + [("LC_ALL", "C")])
    {
      var shellEnvs := inheritedEnv;
      shellEnvs := shellEnvs + [("LC_ALL", "C")];
      if !spawnSucceeds {
        return Err(SpawnFailed);
      }
      var watcher := new Watcher.Spawned(bash, CMD_END_MARKER, commandTimeout, shellEnvs);
      var init := watcher.ExecCmdAndFetchOutput(INIT_COMMANDS);
      if init.Err? {
        return Err(init.error);
      }
      CmdEndMarkerShape();
      r := Ok(watcher);
    }

    /** `exec_cmd_and_fetch_output`, updating the stdin log and the reader's buffer in place. */
    method ExecCmdAndFetchOutput(command: string) returns (r: Result<string, Error>)
      modifies this
      ensures (State(), r) == Exec(bash, marker, old(State()), command)
    {
      if !alive {
        return Err(BrokenPipe);
      }
      var reply := bash(stdin, command);
      stdin := stdin + Written(command, marker);
      buffer := buffer + Printed(reply, marker);
      alive := !reply.Exits?;
      match ReadUntil(buffer, marker)
      case Some((captured, rest)) =>
        buffer := rest;
        r := Ok(captured);
      case None =>
        r := Err(if reply.Exits? then EndOfStream else Timeout);
    }

    /** `kill`: forwards the result of killing the process. */
    method Kill(killSucceeds: bool) returns (r: Outcome<Error>)
      modifies this
      ensures (State(), r) == KillSession(old(State()), killSucceeds)
    {
      if killSucceeds {
        alive := false;
        r := Pass;
      } else {
        r := Fail(KillFailed);
      }
    }
  }
}
