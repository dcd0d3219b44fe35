/**
 * The line command front end of putv (cmds_line.c): one read of standard input
 * is scanned for a command keyword and an optional argument, and the command
 * is applied to the player or the catalog. Player changes are echoed as lines.
 */
module CmdsLine {
  import opened Wrappers
  import Player
  import MediaDir

  /** The commands a line can select (method_append ... method_next). */
  datatype Method = Append | Play | Pause | Stop | Next

  /** The outcome of scanning one buffer: the command, where its argument starts, and whether to go on. */
  datatype Parsed = Parsed(m: Option<Method>, arg: Option<nat>, run: bool)

  /** Where the keyword checks leave the scan: the advanced position, the command, the run flag. */
  datatype Matched = Matched(next: nat, m: Option<Method>, run: bool)

  predicate Blank(c: char)
  {
    c == ' ' || c == '\t'
  }

  /** The keyword `kw` starts at `i` and lies within the buffer. */
  predicate KeywordAt(buf: seq<char>, i: nat, kw: string)
  {
    i + |kw| <= |buf| && buf[i..i + |kw|] == kw
  }

  /**
   * One keyword check at the position `at` has reached: on a match, a command
   * keyword selects its command and is stepped over, and "quit" (no command)
   * only clears the run flag.
   */
  function Try(buf: seq<char>, at: Matched, kw: string, meth: Option<Method>): (r: Matched)
    ensures !KeywordAt(buf, at.next, kw) ==> r == at
    ensures KeywordAt(buf, at.next, kw) && meth.Some? ==> r == Matched(at.next + |kw|, meth, at.run)
    ensures KeywordAt(buf, at.next, kw) && meth.None? ==> r == at.(run := false)
  {
    if !KeywordAt(buf, at.next, kw) then at
    else if meth.Some? then Matched(at.next + |kw|, meth, at.run)
    else at.(run := false)
  }

  /**
   * The successive keyword checks at position `i`, each at the position the
   * previous one left: append, play, pause, stop, next select a command and
   * step over it; quit, checked last, only clears the run flag.
   */
  function Keywords(buf: seq<char>, i: nat, run: bool): (k: Matched)
    requires i <= |buf|
    ensures i <= k.next <= |buf|
    ensures k.m.Some? <==> k.next > i
    ensures k.run ==> run
  {
    var a := Try(buf, Matched(i, None, run), "append", Some(Append));
    var b := Try(buf, a, "play", Some(Play));
    var c := Try(buf, b, "pause", Some(Pause));
    var d := Try(buf, c, "stop", Some(Stop));
    var e := Try(buf, d, "next", Some(Next));
    Try(buf, e, "quit", None)
  }

  /**
   * The scan of cmds_line_run from position `i`: blanks are skipped, a
   * newline ends the scan, the first other character after a command is where
   * its argument starts, and before a command the keyword checks run and the
   * scan resumes one character past where they stopped.
   */
  function Scan(buf: seq<char>, i: nat, m: Option<Method>, run: bool): Parsed
    decreases |buf| - i
  {
    if i >= |buf| then Parsed(m, None, run)
    else if Blank(buf[i]) then Scan(buf, i + 1, m, run)
    else if buf[i] == '\n' then Parsed(m, None, run)
    else if m.Some? then Parsed(m, Some(i), run)
    else
      var k := Keywords(buf, i, run);
      Scan(buf, k.next + 1, k.m, k.run)
  }

  /**
   * What a scan from `i` yields: an argument only after a command, starting
   * inside the buffer at a character that is neither blank nor a newline; a
   * command once selected is kept; the run flag, once cleared, stays cleared.
   */
  predicate ScanYields(buf: seq<char>, i: nat, m: Option<Method>, run: bool, r: Parsed)
  {
    (r.arg.Some? ==> r.m.Some? && i <= r.arg.value < |buf| && !Blank(buf[r.arg.value]) && buf[r.arg.value] != '\n') &&
    (r.run ==> run) &&
    (m.Some? ==> r.m == m)
  }

  lemma {:induction false} ScanResult(buf: seq<char>, i: nat, m: Option<Method>, run: bool)
    ensures ScanYields(buf, i, m, run, Scan(buf, i, m, run))
    decreases |buf| - i
  {
    if i < |buf| && Blank(buf[i]) {
      ScanResult(buf, i + 1, m, run);
      ScanYieldsBlank(buf, i, m, run);
    } else if i < |buf| && buf[i] != '\n' && m.None? {
      var k := Keywords(buf, i, run);
      ScanResult(buf, k.next + 1, k.m, k.run);
      ScanYieldsKeywords(buf, i, run);
    } else {
      ScanYieldsStop(buf, i, m, run);
    }
  }

  /** A skipped blank keeps what the rest of the scan yields. */
  lemma ScanYieldsBlank(buf: seq<char>, i: nat, m: Option<Method>, run: bool)
    requires i < |buf| && Blank(buf[i])
    requires ScanYields(buf, i + 1, m, run, Scan(buf, i + 1, m, run))
    ensures ScanYields(buf, i, m, run, Scan(buf, i, m, run))
  {
    assert Scan(buf, i, m, run) == Scan(buf, i + 1, m, run);
  }

  /** The keyword checks keep what the scan after them yields. */
  lemma ScanYieldsKeywords(buf: seq<char>, i: nat, run: bool)
    requires i < |buf| && !Blank(buf[i]) && buf[i] != '\n'
    requires var k := Keywords(buf, i, run); ScanYields(buf, k.next + 1, k.m, k.run, Scan(buf, k.next + 1, k.m, k.run))
    ensures ScanYields(buf, i, None, run, Scan(buf, i, None, run))
  {
    var k := Keywords(buf, i, run);
    assert Scan(buf, i, None, run) == Scan(buf, k.next + 1, k.m, k.run);
  }

  /** A scan that stops at once yields what it holds. */
  lemma ScanYieldsStop(buf: seq<char>, i: nat, m: Option<Method>, run: bool)
    requires i >= |buf| || buf[i] == '\n' || (!Blank(buf[i]) && m.Some?)
    ensures ScanYields(buf, i, m, run, Scan(buf, i, m, run))
  {
  }

  /**
   * The scan of a whole buffer: an argument only after a command, starting at
   * a character that is neither blank nor a newline.
   */
  function Parse(buf: seq<char>): (r: Parsed)
    ensures r.arg.Some? ==> r.m.Some? && r.arg.value < |buf| && !Blank(buf[r.arg.value]) && buf[r.arg.value] != '\n'
  {
    ScanResult(buf, 0, None, true);
    Scan(buf, 0, None, true)
  }

  /** strchr for '\n' from `from`: the first newline at or after it, if any. */
  function NewlineFrom(buf: seq<char>, from: nat): (r: Option<nat>)
    ensures r.Some? ==> from <= r.value < |buf| && buf[r.value] == '\n'
    ensures r.Some? ==> forall j :: from <= j < r.value ==> buf[j] != '\n'
    ensures r.None? ==> forall j :: from <= j < |buf| ==> buf[j] != '\n'
    decreases |buf| - from
  {
    if from >= |buf| then None
    else if buf[from] == '\n' then Some(from)
    else NewlineFrom(buf, from + 1)
  }

  /** The argument a command receives: from its start up to the first newline, or to the end of the read. */
  function ArgText(buf: seq<char>, arg: Option<nat>): (t: Option<string>)
    requires arg.Some? ==> arg.value <= |buf|
    ensures arg.None? <==> t.None?
    ensures t.Some? ==> '\n' !in t.value
    ensures t.Some? ==> arg.value + |t.value| <= |buf| && buf[arg.value..arg.value + |t.value|] == t.value
    ensures t.Some? && arg.value + |t.value| < |buf| ==> buf[arg.value + |t.value|] == '\n'
  {
    match arg
    case None => None
    case Some(a) =>
      var end := match NewlineFrom(buf, a) case Some(e) => e case None => |buf|;
      Some(buf[a..end])
  }

  /** The buffer after the argument is cut: the newline ending it becomes '\0'. */
  function Terminated(buf: seq<char>, p: Parsed): (t: seq<char>)
    ensures |t| == |buf|
  {
    if p.m.Some? && p.arg.Some? then
      match NewlineFrom(buf, p.arg.value)
      case Some(e) => buf[e := '\0']
      case None => buf
    else buf
  }

  /**
   * One read of cmds_line_run: the scan loop over the buffer, then the cut of
   * the argument; returns the command, the argument position and the run flag.
   */
  method ParseLine(buffer: array<char>) returns (m: Option<Method>, arg: Option<nat>, run: bool)
    modifies buffer
    ensures Parsed(m, arg, run) == Parse(old(buffer[..]))
    ensures buffer[..] == Terminated(old(buffer[..]), Parsed(m, arg, run))
  {
    m, arg, run := ScanLine(buffer[..]);
    if m.Some? && arg.Some? {
      CutArgument(buffer, arg.value);
    }
  }

  /** The scan loop of cmds_line_run over the characters read. */
  method ScanLine(buf: seq<char>) returns (m: Option<Method>, arg: Option<nat>, run: bool)
    ensures Parsed(m, arg, run) == Parse(buf)
  {
    var i := 0;
    m, arg, run := None, None, true;
    while i < |buf|
      invariant Scan(buf, i, m, run) == Parse(buf)
      decreases |buf| - i
    {
      if buf[i] == ' ' || buf[i] == '\t' {
        ScanBlankStep(buf, i, m, run);
        i := i + 1;
        continue;
      }
      if buf[i] == '\n' {
        ScanStops(buf, i, m, run);
        return;
      }
      if m.Some? {
        ScanStops(buf, i, m, run);
        arg := Some(i);
        return;
      }
      var next, m', run' := MatchKeywords(buf, i, run);
      ScanKeywordStep(buf, i, run, next, m', run');
      i, m, run := next + 1, m', run';
    }
    ScanStops(buf, if i <= |buf| then i else |buf|, m, run);
  }

  /** The scan ends at the end of the read, at a newline, and at the first character after a command. */
  lemma ScanStops(buf: seq<char>, i: nat, m: Option<Method>, run: bool)
    requires i <= |buf| && (i == |buf| || !Blank(buf[i]))
    ensures i == |buf| ==> Scan(buf, i, m, run) == Parsed(m, None, run)
    ensures i < |buf| && buf[i] == '\n' ==> Scan(buf, i, m, run) == Parsed(m, None, run)
    ensures i < |buf| && buf[i] != '\n' && m.Some? ==> Scan(buf, i, m, run) == Parsed(m, Some(i), run)
  {
  }

  /** A blank is skipped. */
  lemma ScanBlankStep(buf: seq<char>, i: nat, m: Option<Method>, run: bool)
    requires i < |buf| && Blank(buf[i])
    ensures Scan(buf, i, m, run) == Scan(buf, i + 1, m, run)
  {
  }

  /** Before a command, the scan goes on one character past where the keyword checks stop. */
  lemma ScanKeywordStep(buf: seq<char>, i: nat, run: bool, next: nat, m: Option<Method>, run': bool)
    requires i < |buf| && !Blank(buf[i]) && buf[i] != '\n'
    requires Matched(next, m, run') == Keywords(buf, i, run)
    ensures Scan(buf, i, None, run) == Scan(buf, next + 1, m, run')
  {
    var k := Keywords(buf, i, run);
    assert k.next == next && k.m == m && k.run == run';
    assert Scan(buf, i, None, run) == Scan(buf, k.next + 1, k.m, k.run);
  }

  /** The cut of the argument: the first newline from `from` on becomes '\0'. */
  method CutArgument(buffer: array<char>, from: nat)
    modifies buffer
    ensures buffer[..] == match NewlineFrom(old(buffer[..]), from) case Some(e) => old(buffer[..])[e := '\0'] case None => old(buffer[..])
  {
    var end := NewlineFrom(buffer[..], from);
    if end.Some? {
      buffer[end.value] := '\0';
    }
  }

  /** The keyword checks of the scan loop at position `i`, in their order. */
  method MatchKeywords(buf: seq<char>, i: nat, run: bool) returns (next: nat, m: Option<Method>, run': bool)
    requires i <= |buf|
    ensures Matched(next, m, run') == Keywords(buf, i, run)
  {
    var at := Matched(i, None, run);
    at := TryKeyword(buf, at, "append", Some(Append));
    at := TryKeyword(buf, at, "play", Some(Play));
    at := TryKeyword(buf, at, "pause", Some(Pause));
    at := TryKeyword(buf, at, "stop", Some(Stop));
    at := TryKeyword(buf, at, "next", Some(Next));
    at := TryKeyword(buf, at, "quit", None);
    next, m, run' := at.next, at.m, at.run;
  }

  /** One strncmp test of the scan loop: on a match, select `meth` and step over the keyword, or for quit clear the run flag. */
  method TryKeyword(buf: seq<char>, at: Matched, kw: string, meth: Option<Method>) returns (r: Matched)
    ensures r == Try(buf, at, kw, meth)
  {
    r := at;
    if KeywordAt(buf, at.next, kw) {
      if meth.Some? {
        r := Matched(at.next + |kw|, meth, at.run);
      } else {
        r := at.(run := false);
      }
    }
  }

  // ---------------------------------------------------------------------------
  // What the scan selects
  // ---------------------------------------------------------------------------

  /** A keyword does not start where one of its characters differs. */
  lemma NotKeywordAt(buf: seq<char>, i: nat, kw: string, j: nat)
    requires j < |kw| && (i + |kw| <= |buf| ==> buf[i + j] != kw[j])
    ensures !KeywordAt(buf, i, kw)
  {
    if i + |kw| <= |buf| {
      assert buf[i..i + |kw|][j] == buf[i + j];
    }
  }

  /** No keyword starts with a character other than a, p, s, n or q. */
  lemma NoKeywordAt(buf: seq<char>, i: nat, run: bool)
    requires i < |buf| && buf[i] !in {'a', 'p', 's', 'n', 'q'}
    ensures Keywords(buf, i, run) == Matched(i, None, run)
  {
    NotKeywordAt(buf, i, "append", 0);
    NotKeywordAt(buf, i, "play", 0);
    NotKeywordAt(buf, i, "pause", 0);
    NotKeywordAt(buf, i, "stop", 0);
    NotKeywordAt(buf, i, "next", 0);
    NotKeywordAt(buf, i, "quit", 0);
  }

  // ---------------------------------------------------------------------------
  // A command line
  // ---------------------------------------------------------------------------

  /** The keyword that selects each command. */
  function KeywordOf(cmd: Method): string
  {
    match cmd
    case Append => "append"
    case Play => "play"
    case Pause => "pause"
    case Stop => "stop"
    case Next => "next"
  }

  /** Where the scan after a command finds its argument: the first character from `from` that is not blank, unless it is a newline. */
  function ArgStart(buf: seq<char>, from: nat): (r: Option<nat>)
    ensures r.Some? ==> from <= r.value < |buf| && !Blank(buf[r.value]) && buf[r.value] != '\n'
    ensures r.Some? ==> forall j :: from <= j < r.value ==> Blank(buf[j])
    ensures r.None? && from < |buf| && !Blank(buf[from]) ==> buf[from] == '\n'
    decreases |buf| - from
  {
    if from >= |buf| then None
    else if Blank(buf[from]) then ArgStart(buf, from + 1)
    else if buf[from] == '\n' then None
    else Some(from)
  }

  /** Once a command is selected, the scan only looks for the start of its argument. */
  lemma {:induction false} ScanAfterCommand(buf: seq<char>, from: nat, cmd: Method, run: bool)
    ensures Scan(buf, from, Some(cmd), run) == Parsed(Some(cmd), ArgStart(buf, from), run)
    decreases |buf| - from
  {
    if from < |buf| && Blank(buf[from]) {
      ScanAfterCommand(buf, from + 1, cmd, run);
      ScanBlankStep(buf, from, Some(cmd), run);
    }
  }

  /** Leading blanks are skipped. */
  lemma {:induction false} ScanBlanks(buf: seq<char>, i: nat, n: nat, m: Option<Method>, run: bool)
    requires i <= n <= |buf| && forall j :: i <= j < n ==> Blank(buf[j])
    ensures Scan(buf, i, m, run) == Scan(buf, n, m, run)
    decreases n - i
  {
    if i < n {
      ScanBlankStep(buf, i, m, run);
      ScanBlanks(buf, i + 1, n, m, run);
    }
  }

  /** The `j`-th character of a keyword found at `i`. */
  lemma KeywordChar(buf: seq<char>, i: nat, kw: string, j: nat)
    requires KeywordAt(buf, i, kw) && j < |kw|
    ensures buf[i + j] == kw[j]
  {
    assert buf[i..i + |kw|][j] == buf[i + j];
  }

  /** After a keyword ending at `e`, the later checks fail when the character there starts no later keyword. */
  lemma LaterKeywordsMiss(buf: seq<char>, e: nat)
    requires e < |buf| ==> buf[e] !in {'p', 's', 'n', 'q'}
    ensures !KeywordAt(buf, e, "pause") && !KeywordAt(buf, e, "stop") && !KeywordAt(buf, e, "next") && !KeywordAt(buf, e, "quit")
  {
    NotKeywordAt(buf, e, "pause", 0);
    NotKeywordAt(buf, e, "stop", 0);
    NotKeywordAt(buf, e, "next", 0);
    NotKeywordAt(buf, e, "quit", 0);
  }

  lemma AppendSelects(buf: seq<char>, i: nat, run: bool)
    requires KeywordAt(buf, i, "append") && (i + 6 < |buf| ==> buf[i + 6] !in {'p', 's', 'n', 'q'})
    ensures Keywords(buf, i, run) == Matched(i + 6, Some(Append), run)
  {
    NotKeywordAt(buf, i + 6, "play", 0);
    LaterKeywordsMiss(buf, i + 6);
  }

  lemma PlaySelects(buf: seq<char>, i: nat, run: bool)
    requires KeywordAt(buf, i, "play") && (i + 4 < |buf| ==> buf[i + 4] !in {'p', 's', 'n', 'q'})
    ensures Keywords(buf, i, run) == Matched(i + 4, Some(Play), run)
  {
    KeywordChar(buf, i, "play", 0);
    NotKeywordAt(buf, i, "append", 0);
    LaterKeywordsMiss(buf, i + 4);
  }

  lemma PauseSelects(buf: seq<char>, i: nat, run: bool)
    requires KeywordAt(buf, i, "pause") && (i + 5 < |buf| ==> buf[i + 5] !in {'p', 's', 'n', 'q'})
    ensures Keywords(buf, i, run) == Matched(i + 5, Some(Pause), run)
  {
    KeywordChar(buf, i, "pause", 0);
    KeywordChar(buf, i, "pause", 1);
    NotKeywordAt(buf, i, "append", 0);
    NotKeywordAt(buf, i, "play", 1);
    LaterKeywordsMiss(buf, i + 5);
  }

  lemma StopSelects(buf: seq<char>, i: nat, run: bool)
    requires KeywordAt(buf, i, "stop") && (i + 4 < |buf| ==> buf[i + 4] !in {'p', 's', 'n', 'q'})
    ensures Keywords(buf, i, run) == Matched(i + 4, Some(Stop), run)
  {
    KeywordChar(buf, i, "stop", 0);
    NotKeywordAt(buf, i, "append", 0);
    NotKeywordAt(buf, i, "play", 0);
    NotKeywordAt(buf, i, "pause", 0);
    LaterKeywordsMiss(buf, i + 4);
  }

  lemma NextSelects(buf: seq<char>, i: nat, run: bool)
    requires KeywordAt(buf, i, "next") && (i + 4 < |buf| ==> buf[i + 4] !in {'p', 's', 'n', 'q'})
    ensures Keywords(buf, i, run) == Matched(i + 4, Some(Next), run)
  {
    KeywordChar(buf, i, "next", 0);
    NotKeywordAt(buf, i, "append", 0);
    NotKeywordAt(buf, i, "play", 0);
    NotKeywordAt(buf, i, "pause", 0);
    NotKeywordAt(buf, i, "stop", 0);
    LaterKeywordsMiss(buf, i + 4);
  }

  /**
   * The keyword checks at a command's keyword select that command and step
   * over it, when the character after it, if any, starts no later keyword.
   */
  lemma KeywordSelects(buf: seq<char>, i: nat, cmd: Method, run: bool)
    requires KeywordAt(buf, i, KeywordOf(cmd))
    requires i + |KeywordOf(cmd)| < |buf| ==> buf[i + |KeywordOf(cmd)|] !in {'p', 's', 'n', 'q'}
    ensures Keywords(buf, i, run) == Matched(i + |KeywordOf(cmd)|, Some(cmd), run)
  {
    match cmd
    case Append => AppendSelects(buf, i, run);
    case Play => PlaySelects(buf, i, run);
    case Pause => PauseSelects(buf, i, run);
    case Stop => StopSelects(buf, i, run);
    case Next => NextSelects(buf, i, run);
  }

  /**
   * A buffer holding only blanks before a command keyword at `i`: the scan
   * selects the command, passes over the character right after the keyword,
   * whatever it is, and takes as the argument the first later character that
   * is not blank, unless that is a newline; the run flag stays set.
   */
  lemma CommandAt(buf: seq<char>, i: nat, cmd: Method)
    requires KeywordAt(buf, i, KeywordOf(cmd))
    requires forall j :: 0 <= j < i ==> Blank(buf[j])
    requires i + |KeywordOf(cmd)| < |buf| ==> buf[i + |KeywordOf(cmd)|] !in {'p', 's', 'n', 'q'}
    ensures Parse(buf) == Parsed(Some(cmd), ArgStart(buf, i + |KeywordOf(cmd)| + 1), true)
  {
    ScanBlanks(buf, 0, i, None, true);
    KeywordScan(buf, i, cmd);
  }

  /** Scanning from a command keyword selects that command and goes on to its argument. */
  lemma KeywordScan(buf: seq<char>, i: nat, cmd: Method)
    requires KeywordAt(buf, i, KeywordOf(cmd))
    requires i + |KeywordOf(cmd)| < |buf| ==> buf[i + |KeywordOf(cmd)|] !in {'p', 's', 'n', 'q'}
    ensures Scan(buf, i, None, true) == Parsed(Some(cmd), ArgStart(buf, i + |KeywordOf(cmd)| + 1), true)
  {
    calc {
      Scan(buf, i, None, true);
    == { KeywordSelects(buf, i, cmd, true);
         KeywordChar(buf, i, KeywordOf(cmd), 0);
         ScanKeywordStep(buf, i, true, i + |KeywordOf(cmd)|, Some(cmd), true); }
      Scan(buf, i + |KeywordOf(cmd)| + 1, Some(cmd), true);
    == { ScanAfterCommand(buf, i + |KeywordOf(cmd)| + 1, cmd, true); }
      Parsed(Some(cmd), ArgStart(buf, i + |KeywordOf(cmd)| + 1), true);
    }
  }

  /** The same, for a line written as blanks, a command keyword and the rest. */
  lemma CommandLine(blanks: string, cmd: Method, rest: string)
    requires forall j :: 0 <= j < |blanks| ==> Blank(blanks[j])
    requires rest != [] ==> rest[0] !in {'p', 's', 'n', 'q'}
    ensures var buf := blanks + KeywordOf(cmd) + rest;
            Parse(buf) == Parsed(Some(cmd), ArgStart(buf, |blanks| + |KeywordOf(cmd)| + 1), true)
  {
    var kw := KeywordOf(cmd);
    var buf := blanks + kw + rest;
    var i := |blanks|;
    assert KeywordAt(buf, i, kw) by {
      assert buf[i..i + |kw|] == kw;
    }
    assert forall j :: 0 <= j < i ==> Blank(buf[j]) by {
      forall j | 0 <= j < i
        ensures Blank(buf[j])
      {
        assert buf[j] == blanks[j];
      }
    }
    assert i + |kw| < |buf| ==> buf[i + |kw|] !in {'p', 's', 'n', 'q'} by {
      if i + |kw| < |buf| {
        assert buf[i + |kw|] == rest[0];
      }
    }
    CommandAt(buf, i, cmd);
  }

  /** In "playstop" the checks at the start select play, then stop at the position play left. */
  lemma PlaystopKeywords(buf: seq<char>)
    requires buf == "playstop"
    ensures Keywords(buf, 0, true) == Matched(8, Some(Stop), true)
  {
    NotKeywordAt(buf, 0, "append", 0);
    assert KeywordAt(buf, 0, "play");
    NotKeywordAt(buf, 4, "pause", 0);
    assert KeywordAt(buf, 4, "stop");
    NotKeywordAt(buf, 8, "next", 0);
    NotKeywordAt(buf, 8, "quit", 0);
  }

  /** Keywords are found inside words, and a later one overrides an earlier one. */
  lemma PlaystopSelectsStop()
    ensures Parse("playstop") == Parsed(Some(Stop), None, true)
  {
    var buf := "playstop";
    PlaystopKeywords(buf);
    ScanKeywordStep(buf, 0, true, 8, Some(Stop), true);
  }

  /** In "display" no keyword starts at the 's': "stop" fails on its second character. */
  lemma DisplayNoStop(buf: seq<char>)
    requires buf == "display"
    ensures Keywords(buf, 2, true) == Matched(2, None, true)
  {
    NotKeywordAt(buf, 2, "append", 0);
    NotKeywordAt(buf, 2, "play", 0);
    NotKeywordAt(buf, 2, "pause", 0);
    NotKeywordAt(buf, 2, "stop", 1);
    NotKeywordAt(buf, 2, "next", 0);
    NotKeywordAt(buf, 2, "quit", 0);
  }

  /** In "display" the checks at the 'p' select play and stop at the end of the buffer. */
  lemma DisplayPlay(buf: seq<char>)
    requires buf == "display"
    ensures Keywords(buf, 3, true) == Matched(7, Some(Play), true)
  {
    NotKeywordAt(buf, 3, "append", 0);
    assert KeywordAt(buf, 3, "play");
    NotKeywordAt(buf, 7, "pause", 0);
    NotKeywordAt(buf, 7, "stop", 0);
    NotKeywordAt(buf, 7, "next", 0);
    NotKeywordAt(buf, 7, "quit", 0);
  }

  /** A character that is not blank, not a newline and starts no keyword is passed over. */
  lemma ScanPasses(buf: seq<char>, i: nat, run: bool)
    requires i < |buf| && buf[i] !in {' ', '\t', '\n', 'a', 'p', 's', 'n', 'q'}
    ensures Scan(buf, i, None, run) == Scan(buf, i + 1, None, run)
  {
    NoKeywordAt(buf, i, run);
    ScanKeywordStep(buf, i, run, i, None, run);
  }

  /** A scan from the start passes a leading 'd' and 'i', which start no keyword. */
  lemma DisplayLetters(buf: seq<char>)
    requires 2 <= |buf| && buf[0] == 'd' && buf[1] == 'i'
    ensures Scan(buf, 0, None, true) == Scan(buf, 2, None, true)
  {
    ScanPasses(buf, 0, true);
    ScanPasses(buf, 1, true);
  }

  /** The scan of "display" passes the 's', then selects play and runs past the end. */
  lemma DisplayTail(buf: seq<char>)
    requires buf == "display"
    ensures Scan(buf, 2, None, true) == Scan(buf, 8, Some(Play), true)
  {
    DisplayNoStop(buf);
    ScanKeywordStep(buf, 2, true, 2, None, true);
    DisplayPlay(buf);
    ScanKeywordStep(buf, 3, true, 7, Some(Play), true);
  }

  /** A keyword inside a longer word still selects its command. */
  lemma DisplaySelectsPlay(buf: seq<char>)
    requires buf == "display"
    ensures Parse(buf) == Parsed(Some(Play), None, true)
  {
    DisplayLetters(buf);
    DisplayTail(buf);
  }

  /** In "play\nnext" the checks at the start select play and stop at the newline. */
  lemma PlayLineKeywords(buf: seq<char>)
    requires buf == "play\nnext"
    ensures Keywords(buf, 0, true) == Matched(4, Some(Play), true)
  {
    NotKeywordAt(buf, 0, "append", 0);
    assert KeywordAt(buf, 0, "play");
    NotKeywordAt(buf, 4, "pause", 0);
    NotKeywordAt(buf, 4, "stop", 0);
    NotKeywordAt(buf, 4, "next", 0);
    NotKeywordAt(buf, 4, "quit", 0);
  }

  /** The scan of "play\nnext" selects play and takes the second line as the argument. */
  lemma PlayLineScan(buf: seq<char>)
    requires buf == "play\nnext"
    ensures Parse(buf) == Parsed(Some(Play), Some(5), true)
  {
    PlayLineKeywords(buf);
    ScanKeywordStep(buf, 0, true, 4, Some(Play), true);
    ScanStops(buf, 5, Some(Play), true);
  }

  /** The argument of "play\nnext" runs from position 5 to the end: there is no newline left to cut. */
  lemma PlayLineArgument(buf: seq<char>)
    requires buf == "play\nnext"
    ensures ArgText(buf, Some(5)) == Some("next")
  {
    assert NewlineFrom(buf, 5) == None;
    assert buf[5..9] == "next";
  }

  /** The character right after a keyword is skipped, even a newline: the next line becomes the argument. */
  lemma NewlineAfterKeywordSkipped()
    ensures Parse("play\nnext") == Parsed(Some(Play), Some(5), true)
    ensures ArgText("play\nnext", Some(5)) == Some("next")
  {
    PlayLineScan("play\nnext");
    PlayLineArgument("play\nnext");
  }

  /** The checks at the start of "quit" select nothing and clear the run flag. */
  lemma QuitKeywords()
    ensures Keywords("quit", 0, true) == Matched(0, None, false)
  {
    var buf := "quit";
    NotKeywordAt(buf, 0, "append", 0);
    NotKeywordAt(buf, 0, "play", 0);
    NotKeywordAt(buf, 0, "pause", 0);
    NotKeywordAt(buf, 0, "stop", 0);
    NotKeywordAt(buf, 0, "next", 0);
    assert KeywordAt(buf, 0, "quit");
  }

  /** "quit" clears the run flag and selects nothing. */
  lemma QuitStops()
    ensures Parse("quit") == Parsed(None, None, false)
  {
    QuitScan("quit");
  }

  /** The scan of "quit": the checks at the 'q' clear the run flag, then 'u', 'i' and 't' are passed over. */
  lemma QuitScan(buf: seq<char>)
    requires buf == "quit"
    ensures Parse(buf) == Parsed(None, None, false)
  {
    QuitKeywords();
    ScanKeywordStep(buf, 0, true, 0, None, false);
    ScanPasses(buf, 1, false);
    ScanPasses(buf, 2, false);
    ScanPasses(buf, 3, false);
  }

  /** A line of blanks ends the scan with nothing selected, whatever follows it. */
  lemma {:induction false} BlankLineSelectsNothing(blanks: seq<char>, rest: seq<char>, i: nat)
    requires i <= |blanks|
    requires forall j :: 0 <= j < |blanks| ==> Blank(blanks[j])
    ensures Scan(blanks + "\n" + rest, i, None, true) == Parsed(None, None, true)
    decreases |blanks| - i
  {
    var buf := blanks + "\n" + rest;
    if i < |blanks| {
      assert buf[i] == blanks[i];
      BlankLineSelectsNothing(blanks, rest, i + 1);
    } else {
      assert buf[i] == '\n';
    }
  }

  // ---------------------------------------------------------------------------
  // The commands and the change report
  // ---------------------------------------------------------------------------

  /** method_play: ask for PLAY; 1 when the player reports PLAY afterwards. */
  method MethodPlay(p: Player.PlayerCtx) returns (r: int)
    requires p.Valid()
    modifies p`state, p`fired
    ensures p.Valid()
    ensures r == 1 && p.state == Player.Play
    ensures p.fired == old(p.fired)
  {
    var s := p.RequestState(Player.Play);
    r := if s == Player.Play then 1 else 0;
  }

  /** method_pause: ask for PAUSE; 1 when the player reports PAUSE afterwards. */
  method MethodPause(p: Player.PlayerCtx) returns (r: int)
    requires p.Valid()
    modifies p`state, p`fired
    ensures p.Valid()
    ensures r == 1 && p.state == Player.Pause
    ensures p.fired == old(p.fired) + (if old(p.state) != Player.Pause then Player.FanOut(p.events, Player.Pause) else [])
  {
    var s := p.RequestState(Player.Pause);
    r := if s == Player.Pause then 1 else 0;
  }

  /** method_stop: ask for STOP; 1 when the player reports STOP afterwards. */
  method MethodStop(p: Player.PlayerCtx) returns (r: int)
    requires p.Valid()
    modifies p`state, p`fired
    ensures p.Valid()
    ensures r == 1 && p.state == Player.Stop
    ensures p.fired == old(p.fired)
  {
    var s := p.RequestState(Player.Stop);
    r := if s == Player.Stop then 1 else 0;
  }

  /** cmds_line_onchange: the line printed for the player's new state, if any. */
  function OnChangeLine(s: Player.State): (line: Option<string>)
    ensures line.Some? <==> s in {Player.Play, Player.Pause, Player.Stop}
    ensures line.Some? ==> |line.value| > 0 && line.value[|line.value| - 1] == '\n'
  {
    match s
    case Play => Some("player: play\n")
    case Pause => Some("player: pause\n")
    case Stop => Some("player: stop\n")
    case _ => None
  }

  /**
   * The dispatch of cmds_line_run: the selected command is applied with the
   * argument text; append and next go to the directory catalog.
   */
  method Dispatch(m: Method, arg: Option<string>, p: Player.PlayerCtx, media: MediaDir.MediaCtx, root: seq<MediaDir.Entry>)
    returns (r: int)
    requires p.Valid() && media.Valid()
    requires m == Append ==> arg.Some?
    modifies p`state, p`fired, media`url, media`current, media`mediaid
    ensures p.Valid() && media.Valid()
    ensures m in {Play, Pause, Stop} ==> r == 1 && p.state == (match m case Play => Player.Play case Pause => Player.Pause case _ => Player.Stop)
    ensures m in {Play, Pause, Stop} ==> unchanged(media)
    ensures m in {Play, Stop} ==> p.fired == old(p.fired)
    ensures m == Pause ==>
              p.fired == old(p.fired) + (if old(p.state) != Player.Pause then Player.FanOut(p.events, Player.Pause) else [])
    ensures m == Append ==> media.url == arg.value && r == 0 && unchanged(p)
    ensures m == Append ==> media.current == old(media.current) && media.mediaid == old(media.mediaid)
    ensures m == Next ==> r == media.mediaid && unchanged(p) && media.url == old(media.url)
    ensures m == Next ==>
              var w := MediaDir.Resume(old(media.url), root, old(media.current), old(media.mediaid),
                                       MediaDir.Query(old(media.mediaid) + 1, false), MediaDir.MediaOnly);
              media.current == w.rest && media.mediaid == w.id
  {
    match m {
      case Append => r := media.Insert(arg.value);
      case Play => r := MethodPlay(p);
      case Pause => r := MethodPause(p);
      case Stop => r := MethodStop(p);
      case Next => r := media.Next(root);
    }
  }
}
