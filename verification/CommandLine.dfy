/**
  The cmd.exe route: caret escaping (src/argv.c), the scanner that undoes it,
  and the command line HandleExec builds from a request (src/mcp-w32s.c).
 */
module CommandLine {
  import opened Text
  import opened Argv

  /** cmd.exe reads these as syntax outside quotes. */
  predicate IsMeta(c: char) {
    c == '&' || c == '|' || c == '<' || c == '>' || c == '^' || c == '(' || c == ')' || c == '%'
  }

  function CmdEscaped(line: string, quoted: bool): string {
    if |line| == 0 then ""
    else if line[0] == '"' then "\"" + CmdEscaped(line[1..], !quoted)
    else (if !quoted && IsMeta(line[0]) then ['^', line[0]] else [line[0]]) + CmdEscaped(line[1..], quoted)
  }

  /** What cmd.exe passes on, or that it met syntax. */
  datatype CmdLine = Plain(text: string) | Syntax

  function Prepend(c: char, l: CmdLine): CmdLine {
    if l.Plain? then Plain([c] + l.text) else Syntax
  }

  /** A quote toggles; outside quotes a caret makes the next character literal. */
  function CmdRead(s: string, quoted: bool): CmdLine {
    if |s| == 0 then Plain("")
    else if s[0] == '"' then Prepend(s[0], CmdRead(s[1..], !quoted))
    else if !quoted && s[0] == '^' then
      if |s| == 1 then Plain("") else Prepend(s[1], CmdRead(s[2..], quoted))
    else if !quoted && IsMeta(s[0]) then Syntax
    else Prepend(s[0], CmdRead(s[1..], quoted))
  }

  /**
    The scanner meets no syntax in an escaped line and gives the line back,
    wherever the quotes fall and however many there are.
   */
  lemma {:induction false} CmdReadEscaped(line: string, quoted: bool)
    ensures CmdRead(CmdEscaped(line, quoted), quoted) == Plain(line)
  {
    if |line| == 0 {
      assert line == "";
    } else {
      var c := line[0];
      var next := if c == '"' then !quoted else quoted;
      var rest := CmdEscaped(line[1..], next);
      CmdReadEscaped(line[1..], next);
      assert [c] + line[1..] == line;
      if c != '"' && !quoted && IsMeta(c) {
        var s := ['^', c] + rest;
        assert s[0] == '^' && s[1] == c && s[2..] == rest;
      } else {
        var s := [c] + rest;
        assert s[0] == c && s[1..] == rest;
      }
    }
  }

  /** Escaping is minimal: it changes a line exactly when the scanner would. */
  lemma {:induction false} EscapeOnlyWhenNeeded(line: string, quoted: bool)
    ensures CmdEscaped(line, quoted) == line <==> CmdRead(line, quoted) == Plain(line)
    ensures |CmdEscaped(line, quoted)| >= |line|
    ensures CmdRead(line, quoted).Plain? ==> |CmdRead(line, quoted).text| <= |line|
  {
    if |line| > 0 {
      var c := line[0];
      var next := if c == '"' then !quoted else quoted;
      EscapeOnlyWhenNeeded(line[1..], next);
      if |line| > 1 { EscapeOnlyWhenNeeded(line[2..], quoted); }
      var rest := CmdEscaped(line[1..], next);
      assert line == [c] + line[1..];
      if c != '"' && !quoted && IsMeta(c) {
        assert CmdEscaped(line, quoted) == ['^', c] + rest;
      } else {
        assert CmdEscaped(line, quoted) == [c] + rest;
        assert ([c] + rest)[1..] == rest;
        var r := CmdRead(line[1..], next);
        if r.Plain? { assert ([c] + r.text)[1..] == r.text; }
      }
    }
  }

  /** The eight characters that are escaped outside quotes; no other is. */
  lemma EscapedCharacters(c: char)
    ensures CmdEscaped([c], false) == if c in "&|<>^()%" then ['^', c] else [c]
    ensures CmdEscaped(['"', c], false) == ['"', c]
  {
    assert [c][1..] == "" && ['"', c][1..] == [c];
    assert CmdEscaped([c], true) == [c] by { assert CmdEscaped("", false) == "" && CmdEscaped("", true) == ""; }
  }

  method ArgvCmdEscape(line: string, out: array<char>, outSize: int) returns (n: int)
    requires outSize <= 0 || outSize <= out.Length
    modifies out
    ensures Printed(old(out[..]), out[..], 0, outSize, CmdEscaped(line, false), n)
  {
    hide *;
    ghost var buf, text, done: string := out[..], CmdEscaped(line, false), "";
    if outSize < 1 {
      PrintedNowhere(buf, 0, outSize, text);
      return -1;
    }
    var pos, inQuotes := 0, false;
    OverwriteNone(buf, 0);
    var i := 0;
    assert line[0..] == line;
    while i < |line|
      invariant i <= |line| && pos == |done| <= outSize - 1
      invariant text == done + CmdEscaped(line[i..], inQuotes)
      invariant out[..] == Overwrite(buf, 0, done)
    {
      CmdEscapedAt(line, i, inQuotes);
      var c := line[i];
      var escape := c != '"' && !inQuotes && IsMeta(c);
      ghost var more := CmdEscaped(line[i + 1..], if c == '"' then !inQuotes else inQuotes);
      if c == '"' { inQuotes := !inQuotes; }
      if escape {
        var ok := ArgvPut(out, 0, pos, outSize, '^');
        if !ok {
          ClippedJoin(buf, outSize, done, out[..], out[..], text);
          return -1;
        }
        Extend(buf, 0, done, "^");
        Assoc(done, "^", [c] + more);
        assert ['^', c] + more == "^" + ([c] + more);
        pos, done := pos + 1, done + "^";
      }
      assert text == done + ([c] + more);
      var ok := ArgvPut(out, 0, pos, outSize, c);
      if !ok {
        ClippedJoin(buf, outSize, done, out[..], out[..], text);
        return -1;
      }
      Extend(buf, 0, done, [c]);
      Assoc(done, [c], more);
      pos, done := pos + 1, done + [c];
      i := i + 1;
    }
    CmdEscapedEnd(line, inQuotes);
    assert text == done;
    PutNul(out, 0, pos);
    PrintedWhole(buf, 0, outSize, text, out[..]);
    n := pos;
  }

  lemma CmdEscapedAt(line: string, i: nat, quoted: bool)
    requires i < |line|
    ensures var c := line[i];
            CmdEscaped(line[i..], quoted) ==
            (if c != '"' && !quoted && IsMeta(c) then ['^', c] else [c])
            + CmdEscaped(line[i + 1..], if c == '"' then !quoted else quoted)
  {
    assert line[i..][1..] == line[i + 1..];
  }

  lemma CmdEscapedEnd(line: string, quoted: bool)
    ensures CmdEscaped(line[|line|..], quoted) == ""
  {}

  // ------------------------------------------------------------------
  // HandleExec, step 6 and 7
  // ------------------------------------------------------------------

  const BUFFER: nat := 32768
  const SHELL_MAX: nat := 8192
  const DIRECT_MAX: nat := 32766

  datatype Launch = Line(text: string) | Refused(reason: string)

  /** The catalog entry of the command, when there is one. */
  datatype Entry = NoEntry | Entry(builtin: bool, shellModern: string, shellWin32s: string)

  /** argv[0] is already in a builtin's shell string, so only the rest is passed. */
  predicate UsesBuiltinPrefix(e: Entry, argv: seq<string>) {
    e.Entry? && e.builtin && |argv| > 0
  }

  function UserArgs(e: Entry, argv: seq<string>): seq<string> {
    if UsesBuiltinPrefix(e, argv) then argv[1..] else argv
  }

  function Prefix(e: Entry, argv: seq<string>, win32s: bool): string {
    if UsesBuiltinPrefix(e, argv) then if win32s then e.shellWin32s else e.shellModern
    else if win32s then "command.com /c" else "cmd.exe /c"
  }

  /** The user's part of the line before any shell escaping. */
  function UserLine(e: Entry, argv: seq<string>, line: string): string {
    if |argv| > 0 then Joined(UserArgs(e, argv)) else line
  }

  function ShellLine(prefix: string, tail: string): string {
    if tail == "" then prefix else prefix + " " + tail
  }

  function Built(e: Entry, argv: seq<string>, line: string, viaShell: bool, win32s: bool): Launch {
    var user := UserLine(e, argv, line);
    var tail := CmdEscaped(user, false);
    var whole := if viaShell then ShellLine(Prefix(e, argv, win32s), tail) else user;
    if |argv| > 0 && |user| >= BUFFER then Refused("invalid argv")
    else if viaShell && |tail| >= BUFFER then Refused("command line too long")
    else if |whole| > (if viaShell then SHELL_MAX else DIRECT_MAX) then Refused("command line too long")
    else Line(whole)
  }

  lemma EscapedIsLonger(user: string)
    ensures |CmdEscaped(user, false)| >= |user| && (|CmdEscaped(user, false)| == 0 <==> |user| == 0)
  {
    EscapeOnlyWhenNeeded(user, false);
    if |user| == 0 { CmdEscapedEnd(user, false); }
    hide CmdRead;
  }

  /** A whole line that is not too long. Arguments that no buffer holds are refused as such. */
  function Fitting(user: string, whole: string, most: nat): Launch {
    if |whole| <= most then Line(whole) else if |user| >= 32768 then Refused("invalid argv") else Refused("command line too long")
  }

  /** What follows the shell: the escaped user part after a space, or nothing. */
  function Spaced(user: string): string { if |user| == 0 then "" else " " + CmdEscaped(user, false) }

  lemma ThroughShell(e: Entry, argv: seq<string>, line: string, win32s: bool)
    requires |line| < 1024 && |Prefix(e, argv, win32s)| < 128
    ensures var user := UserLine(e, argv, line);
            Built(e, argv, line, true, win32s) == Fitting(user, Prefix(e, argv, win32s) + Spaced(user), 8192)
  {
    hide Joined, CmdEscaped, Prefix, UserArgs;
    var user, prefix := UserLine(e, argv, line), Prefix(e, argv, win32s);
    EscapedIsLonger(user);
    ShellLineIs(prefix, user);
    hide Spaced, ShellLine;
  }

  lemma ShellLineIs(prefix: string, user: string)
    ensures ShellLine(prefix, CmdEscaped(user, false)) == prefix + Spaced(user)
    ensures |Spaced(user)| >= |CmdEscaped(user, false)|
  {
    EscapedIsLonger(user);
    hide CmdEscaped;
    Assoc(prefix, " ", CmdEscaped(user, false));
  }

  lemma Directly(e: Entry, argv: seq<string>, line: string, win32s: bool)
    requires |line| < 1024
    ensures var user := UserLine(e, argv, line); Built(e, argv, line, false, win32s) == Fitting(user, user, 32766)
  {
    hide Joined, CmdEscaped, Prefix, UserArgs;
  }

  /**
    What is launched, in words of its own. Through a shell the line is the builtin's
    shell string for this era, or the era's own shell, and then the escaped user part
    after a space, if there is one; and there is a line exactly if that has at most
    8192 characters. Without a shell it is the user part, of at most 32766.
   */
  predicate Launches(e: Entry, argv: seq<string>, line: string, viaShell: bool, win32s: bool, r: Launch) {
    var builtin := e.Entry? && e.builtin && |argv| > 0;
    var user := if |argv| == 0 then line else if builtin then Joined(argv[1..]) else Joined(argv);
    && (viaShell && builtin && !win32s ==> r == Fitting(user, e.shellModern + Spaced(user), 8192))
    && (viaShell && builtin && win32s ==> r == Fitting(user, e.shellWin32s + Spaced(user), 8192))
    && (viaShell && !builtin && !win32s ==> r == Fitting(user, "cmd.exe /c" + Spaced(user), 8192))
    && (viaShell && !builtin && win32s ==> r == Fitting(user, "command.com /c" + Spaced(user), 8192))
    && (!viaShell ==> r == Fitting(user, user, 32766))
  }

  lemma LaunchIs(e: Entry, argv: seq<string>, line: string, viaShell: bool, win32s: bool)
    requires |line| < 1024 && (e.Entry? ==> |e.shellModern| < 128 && |e.shellWin32s| < 128)
    ensures Launches(e, argv, line, viaShell, win32s, Built(e, argv, line, viaShell, win32s))
  {
    if viaShell { ThroughShell(e, argv, line, win32s); } else { Directly(e, argv, line, win32s); }
    hide Joined, Spaced, Fitting, Built;
  }

  /** The arguments joined in a buffer of their own. */
  method JoinArgs(args: seq<string>) returns (ok: bool, user: string)
    ensures ok <==> |Joined(args)| < BUFFER
    ensures ok ==> user == Joined(args)
  {
    hide Joined;
    var joined := new char[BUFFER];
    var jl := ArgvJoin(args, joined, BUFFER);
    ok := jl >= 0;
    user := if ok then joined[..jl] else "";
  }

  /** The tail escaped in a buffer of its own. */
  method EscapeTail(user: string) returns (ok: bool, tail: string)
    ensures ok <==> |CmdEscaped(user, false)| < BUFFER
    ensures ok ==> tail == CmdEscaped(user, false)
  {
    hide CmdEscaped;
    var escapedTail := new char[BUFFER];
    var n := ArgvCmdEscape(user, escapedTail, BUFFER);
    ok := n >= 0;
    tail := if ok then escapedTail[..n] else "";
  }

  method BuildCommandLine(e: Entry, argv: seq<string>, line: string, viaShell: bool, win32s: bool)
    returns (r: Launch)
    requires |line| < 1024 && (e.Entry? ==> |e.shellModern| < 128 && |e.shellWin32s| < 128)
    ensures r == Built(e, argv, line, viaShell, win32s)
    ensures Launches(e, argv, line, viaShell, win32s, r)
  {
    LaunchIs(e, argv, line, viaShell, win32s);
    hide Joined, CmdEscaped, Launches;
    var user := line;
    var skip := if UsesBuiltinPrefix(e, argv) then 1 else 0;
    if |argv| > 0 {
      var ok;
      ok, user := JoinArgs(argv[skip..]);
      if !ok {
        return Refused("invalid argv");
      }
    }
    var cmdLine := user;
    if viaShell {
      var ok, tail := EscapeTail(user);
      if !ok {
        return Refused("command line too long");
      }
      cmdLine := Prefix(e, argv, win32s);
      if tail != "" {
        if |cmdLine| + 1 + |tail| >= BUFFER {
          return Refused("command line too long");
        }
        cmdLine := cmdLine + " " + tail;
      }
    }
    var cmdLineMax := if viaShell then SHELL_MAX else DIRECT_MAX;
    if |cmdLine| > cmdLineMax {
      return Refused("command line too long");
    }
    r := Line(cmdLine);
  }

  /** Spawned directly, the child reads exactly the vector that was asked for, less a builtin's own name. */
  lemma DirectLinePreservesArgs(d: Dialect, e: Entry, argv: seq<string>, line: string, win32s: bool)
    requires argv != [] && Built(e, argv, line, false, win32s).Line?
    ensures Tokenize(d, Built(e, argv, line, false, win32s).text) == if e.Entry? && e.builtin then argv[1..] else argv
  {
    TokenizeJoined(d, argv);
    TokenizeJoined(d, argv[1..]);
    hide Joined, Tokenize, CmdEscaped;
  }

  /**
    Through a shell, the shell is followed by a tail in which cmd meets no syntax;
    and what cmd passes on reads as exactly the user's arguments, or is the user's
    line where only that was given.
   */
  lemma ShellLinePreservesArgs(d: Dialect, e: Entry, argv: seq<string>, line: string, win32s: bool)
    requires |line| < 1024 && (e.Entry? ==> |e.shellModern| < 128 && |e.shellWin32s| < 128)
    requires Built(e, argv, line, true, win32s).Line?
    ensures var builtin := e.Entry? && e.builtin && |argv| > 0;
            exists shell: string, tail: string ::
              && Built(e, argv, line, true, win32s).text == ShellLine(shell, tail)
              && (builtin && win32s ==> shell == e.shellWin32s) && (builtin && !win32s ==> shell == e.shellModern)
              && (!builtin && win32s ==> shell == "command.com /c") && (!builtin && !win32s ==> shell == "cmd.exe /c")
              && CmdRead(tail, false).Plain?
              && (|argv| == 0 ==> CmdRead(tail, false).text == line)
              && (|argv| > 0 ==> Tokenize(d, CmdRead(tail, false).text) == if builtin then argv[1..] else argv)
  {
    var user := UserLine(e, argv, line);
    var tail := CmdEscaped(user, false);
    CmdReadEscaped(user, false);
    TokenizeJoined(d, UserArgs(e, argv));
    assert Built(e, argv, line, true, win32s).text == ShellLine(Prefix(e, argv, win32s), tail);
    hide CmdRead, CmdEscaped, Tokenize, Joined, ShellLine;
  }
}
