/**
 * The string operations the watcher relies on: `str::find` (used by the
 * output reader to locate the end marker), `str::split` on one character,
 * `[String]::join`, and `str::lines`.
 */
module Text {
  import opened Wrappers

  /** `needle` occurs in `s` starting at index `i`. */
  predicate OccursAt(s: string, needle: string, i: nat) {
    i + |needle| <= |s| && s[i..i + |needle|] == needle
  }

  predicate Contains(s: string, needle: string) {
    exists i: nat | i <= |s| :: OccursAt(s, needle, i)
  }

  /** Occurrences in `s[1..]` are the occurrences in `s` shifted by one. */
  lemma ShiftOccurrence(s: string, needle: string, j: nat)
    requires |s| > 0
    ensures OccursAt(s, needle, j + 1) <==> OccursAt(s[1..], needle, j)
  {
    if j + 1 + |needle| <= |s| {
      assert s[1..][j..j + |needle|] == s[j + 1..j + 1 + |needle|];
    }
  }

  /** The index `str::find` returns: the first place where `needle` occurs. */
  function FirstOccurrence(s: string, needle: string): (r: Option<nat>)
    ensures r.Some? ==> OccursAt(s, needle, r.value)
    ensures r.Some? ==> forall j: nat :: j < r.value ==> !OccursAt(s, needle, j)
    ensures r.None? ==> !Contains(s, needle)
    decreases |s|
  {
    if |s| < |needle| then None
    else if s[..|needle|] == needle then Some(0)
    else
      assert !OccursAt(s, needle, 0);
      match FirstOccurrence(s[1..], needle)
      case None =>
        assert forall j: nat :: !OccursAt(s, needle, j) by {
          forall j: nat ensures !OccursAt(s, needle, j) {
            if j > 0 { ShiftOccurrence(s, needle, j - 1); }
          }
        }
        None
      case Some(i) =>
        ShiftOccurrence(s, needle, i);
        assert forall j: nat :: j < i + 1 ==> !OccursAt(s, needle, j) by {
          forall j: nat | j < i + 1 ensures !OccursAt(s, needle, j) {
            if j > 0 { ShiftOccurrence(s, needle, j - 1); }
          }
        }
        Some(i + 1)
  }

  /**
   * Reading a buffer up to the first occurrence of `needle`: the text before
   * it and the text after it, or nothing when `needle` does not occur.
   */
  function ReadUntil(buffer: string, needle: string): (r: Option<(string, string)>)
    ensures r.None? <==> !Contains(buffer, needle)
    ensures r.Some? ==> buffer == r.value.0 + needle + r.value.1
    ensures r.Some? ==> forall j: nat :: j < |r.value.0| ==> !OccursAt(buffer, needle, j)
  {
    match FirstOccurrence(buffer, needle)
    case None => None
    case Some(i) =>
      assert buffer == buffer[..i] + needle + buffer[i + |needle|..];
      Some((buffer[..i], buffer[i + |needle|..]))
  }

  /** An occurrence inside a prefix is an occurrence in the whole string. */
  lemma OccursInPrefix(s: string, t: string, needle: string, j: nat)
    requires OccursAt(s, needle, j)
    ensures OccursAt(s + t, needle, j)
  {
    assert (s + t)[j..j + |needle|] == s[j..j + |needle|];
  }

  /** What `ReadUntil` captures never contains the needle itself. */
  lemma {:induction false} CaptureExcludesNeedle(buffer: string, needle: string)
    requires needle != []
    requires ReadUntil(buffer, needle).Some?
    ensures !Contains(ReadUntil(buffer, needle).value.0, needle)
  {
    var (c, rest) := ReadUntil(buffer, needle).value;
    assert buffer == c + (needle + rest);
    forall j: nat | j <= |c| ensures !OccursAt(c, needle, j) {
      if OccursAt(c, needle, j) {
        OccursInPrefix(c, needle + rest, needle, j);
      }
    }
  }

  /** Once found, the first occurrence stays first however much more text arrives. */
  lemma {:induction false} FirstOccurrenceStable(s: string, t: string, needle: string)
    requires FirstOccurrence(s, needle).Some?
    ensures FirstOccurrence(s + t, needle) == FirstOccurrence(s, needle)
  {
    var i := FirstOccurrence(s, needle).value;
    OccursInPrefix(s, t, needle, i);
    forall j: nat | j < i ensures !OccursAt(s + t, needle, j) {
      assert j + |needle| <= |s|;
      assert (s + t)[j..j + |needle|] == s[j..j + |needle|];
      assert !OccursAt(s, needle, j);
    }
    var k := FirstOccurrence(s + t, needle);
    assert k.Some?;
    assert !(k.value < i);
    assert !(i < k.value);
  }

  /**
   * A string is unbordered when no proper non-empty prefix of it is also a
   * suffix of it, i.e. it cannot overlap itself.
   */
  predicate Unbordered(m: string) {
    forall b: nat :: 0 < b < |m| ==> m[..b] != m[|m| - b..]
  }

  /**
   * When `out` does not contain an unbordered `m`, reading `out + m` up to `m`
   * yields exactly `out` and consumes everything.
   */
  lemma {:induction false} ReadsOwnOutput(out: string, m: string)
    requires m != [] && Unbordered(m) && !Contains(out, m)
    ensures ReadUntil(out + m, m) == Some((out, []))
  {
    var s := out + m;
    assert s[|out|..|out| + |m|] == m;
    assert OccursAt(s, m, |out|);
    forall j: nat | j < |out| ensures !OccursAt(s, m, j) {
      if j + |m| <= |out| {
        assert s[j..j + |m|] == out[j..j + |m|];
        assert !OccursAt(out, m, j);
      } else {
        var k := |out| - j;
        var b := |m| - k;
        assert m[..b] != m[|m| - b..];
        assert s[j..j + |m|][k..] == m[..b];
      }
    }
    var i := FirstOccurrence(s, m).value;
    assert !(i < |out|);
    assert !(|out| < i);
    assert s[..|out|] == out;
    assert s[|out| + |m|..] == [];
  }

  /** With a self-overlapping marker the capture can stop short and leave output behind. */
  lemma BorderedMarkerLeaks()
    ensures !Contains("aX", "aXa")
    ensures ReadUntil("aX" + "aXa", "aXa") == Some(("", "Xa"))
  {
    var s := "aX" + "aXa";
    assert s[..3] == "aXa";
    assert s[..0] == "" && s[3..] == "Xa";
  }

  // ---------------------------------------------------------------------------
  // split / join

  /** Number of occurrences of `c` in `s`. */
  function Count(s: string, c: char): nat {
    if s == [] then 0 else (if s[0] == c then 1 else 0) + Count(s[1..], c)
  }

  /** `s.split(sep)`: the pieces between separators, empty pieces included. */
  function Split(s: string, sep: char): (pieces: seq<string>)
    ensures |pieces| >= 1
    decreases |s|
  {
    if s == [] then [""]
    else
      var rest := Split(s[1..], sep);
      if s[0] == sep then [""] + rest
      else [[s[0]] + rest[0]] + rest[1..]
  }

  /** `pieces.join(sep)`; the join of no pieces is the empty string. */
  function Join(pieces: seq<string>, sep: string): string {
    if |pieces| == 0 then ""
    else if |pieces| == 1 then pieces[0]
    else pieces[0] + sep + Join(pieces[1..], sep)
  }

  lemma {:induction false} SplitCount(s: string, sep: char)
    ensures |Split(s, sep)| == Count(s, sep) + 1
    decreases |s|
  {
    if s != [] { SplitCount(s[1..], sep); }
  }

  lemma {:induction false} SplitPiecesFree(s: string, sep: char, c: char)
    requires c == sep || c !in s
    ensures forall p :: p in Split(s, sep) ==> c !in p
    decreases |s|
  {
    if s != [] {
      SplitPiecesFree(s[1..], sep, c);
    }
  }

  lemma {:induction false} JoinSplit(s: string, sep: char)
    ensures Join(Split(s, sep), [sep]) == s
    decreases |s|
  {
    if s != [] {
      var rest := Split(s[1..], sep);
      JoinSplit(s[1..], sep);
      if s[0] == sep {
        assert ([""] + rest)[1..] == rest;
      } else {
        var ps := [[s[0]] + rest[0]] + rest[1..];
        if |rest| > 1 {
          assert ps[1..] == rest[1..];
          assert Join(rest, [sep]) == rest[0] + [sep] + Join(rest[1..], [sep]);
        }
      }
    }
  }

  lemma SplitCons(c: char, x: string, sep: char)
    ensures Split([c] + x, sep) ==
      if c == sep then [""] + Split(x, sep) else [[c] + Split(x, sep)[0]] + Split(x, sep)[1..]
  {
    assert ([c] + x)[1..] == x;
  }

  /** A word free of the separator, then the separator: the word is the first piece, and splitting resumes after it. */
  lemma {:induction false} SplitAfterWord(word: string, x: string, sep: char)
    requires sep !in word
    ensures Split(word + [sep] + x, sep) == [word] + Split(x, sep)
    decreases |word|
  {
    if word == [] {
      assert word + [sep] + x == [sep] + x;
      SplitCons(sep, x, sep);
    } else {
      var tail := word[1..] + [sep] + x;
      assert sep !in word[1..] by { assert forall c :: c in word[1..] ==> c in word; }
      SplitAfterWord(word[1..], x, sep);
      assert word + [sep] + x == [word[0]] + tail;
      SplitCons(word[0], tail, sep);
      assert [word[0]] + word[1..] == word;
    }
  }

  lemma JoinCons(p: string, ps: seq<string>, sep: string)
    requires p != []
    ensures Join([p] + ps, sep) == [p[0]] + Join([p[1..]] + ps, sep)
  {
    assert ([p] + ps)[1..] == ps;
    assert ([p[1..]] + ps)[1..] == ps;
    assert [p[0]] + p[1..] == p;
  }

  lemma {:induction false} SplitJoin(pieces: seq<string>, sep: char)
    requires |pieces| >= 1
    requires forall p :: p in pieces ==> sep !in p
    ensures Split(Join(pieces, [sep]), sep) == pieces
    decreases |pieces|, |pieces[0]|
  {
    var p, ps := pieces[0], pieces[1..];
    assert pieces == [p] + ps;
    if |pieces| == 1 {
      SplitOfFree(p, sep);
    } else if p == [] {
      SplitJoin(ps, sep);
      assert Join(pieces, [sep]) == [sep] + Join(ps, [sep]);
      SplitCons(sep, Join(ps, [sep]), sep);
    } else {
      var tail := [p[1..]] + ps;
      assert tail[0] == p[1..] && tail[1..] == ps;
      assert sep !in p[1..] by { assert forall x :: x in p[1..] ==> x in p; }
      SplitJoin(tail, sep);
      JoinCons(p, ps, [sep]);
      SplitCons(p[0], Join(tail, [sep]), sep);
      assert [p[0]] + p[1..] == p;
    }
  }

  lemma {:induction false} SplitOfFree(p: string, sep: char)
    requires sep !in p
    ensures Split(p, sep) == [p]
    decreases |p|
  {
    if p != [] {
      SplitOfFree(p[1..], sep);
      assert [p[0]] + p[1..] == p;
    }
  }

  lemma {:induction false} JoinSnoc(pieces: seq<string>, last: string, sep: string)
    requires |pieces| >= 1
    ensures Join(pieces + [last], sep) == Join(pieces, sep) + sep + last
    decreases |pieces|
  {
    if |pieces| > 1 {
      assert (pieces + [last])[1..] == pieces[1..] + [last];
      JoinSnoc(pieces[1..], last, sep);
    }
  }

  // ---------------------------------------------------------------------------
  // lines

  /** Drops one trailing carriage return, as a "\r\n" line ending ends a line. */
  function StripCarriageReturn(line: string): string {
    if line != [] && line[|line| - 1] == '\r' then line[..|line| - 1] else line
  }

  /**
   * `s.lines()`: the lines of `s`, each ended by "\n" or "\r\n"; the last
   * line ending is optional and yields no empty line after it.
   */
  function Lines(s: string): seq<string> {
    var ps := Split(s, '\n');
    var init := ps[..|ps| - 1];
    var last := ps[|ps| - 1];
    seq(|init|, i requires 0 <= i < |init| => StripCarriageReturn(init[i]))
      + (if last == "" then [] else [last])
  }

  /** `s` without its final character when that is a newline. */
  function DropFinalNewline(s: string): string {
    if s != [] && s[|s| - 1] == '\n' then s[..|s| - 1] else s
  }

  /**
   * Joining the lines of a text without carriage returns gives the text back,
   * except for one final newline, which is lost.
   */
  lemma {:induction false} JoinLines(s: string)
    requires '\r' !in s
    ensures Join(Lines(s), "\n") == DropFinalNewline(s)
  {
    var ps := Split(s, '\n');
    var init := ps[..|ps| - 1];
    var last := ps[|ps| - 1];
    JoinSplit(s, '\n');
    SplitPiecesFree(s, '\n', '\r');
    SplitPiecesFree(s, '\n', '\n');
    var stripped := seq(|init|, i requires 0 <= i < |init| => StripCarriageReturn(init[i]));
    assert stripped == init by {
      forall i | 0 <= i < |init| ensures stripped[i] == init[i] {
        assert init[i] in ps;
      }
    }
    assert ps == init + [last];
    assert last in ps;
    if |init| == 0 {
      assert s == last;
    } else {
      JoinSnoc(init, last, "\n");
      assert s == Join(init, "\n") + "\n" + last;
    }
    if last == "" {
      assert Lines(s) == init;
      if |init| > 0 {
        assert s[..|s| - 1] == Join(init, "\n");
      }
    } else {
      assert Lines(s) == ps;
      assert s[|s| - 1] == last[|last| - 1];
    }
  }
}
