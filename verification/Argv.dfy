/**
  src/argv.c: from an argument vector to a command line, and from a command line
  to a cmd.exe line. The readers that undo each printer are written beside them.

  Strings are C strings: none holds a NUL.
 */
module Argv {
  import opened Text

  const NUL: char := '\0'

  // ------------------------------------------------------------------
  // Quoting one argument
  // ------------------------------------------------------------------

  predicate IsSpecial(c: char) {
    c == ' ' || c == '\t' || c == '\n' || c == '\U{000B}' || c == '"'
  }

  predicate NeedsQuoting(arg: string) {
    arg == "" || exists c :: c in arg && IsSpecial(c)
  }

  function Run(c: char, n: nat): (r: string)
    ensures |r| == n && forall i :: 0 <= i < n ==> r[i] == c
  {
    seq(n, _ => c)
  }

  /** The backslashes at the front of s. */
  function Slashes(s: string): (n: nat)
    ensures n <= |s|
  {
    if |s| == 0 || s[0] != '\\' then 0 else 1 + Slashes(s[1..])
  }

  lemma {:induction false} SlashesAre(s: string)
    ensures var n := Slashes(s); s[..n] == Run('\\', n) && (n < |s| ==> s[n] != '\\')
  {
    if s != "" && s[0] == '\\' { SlashesAre(s[1..]); }
  }

  /** n backslashes and then c, as they are printed inside quotes. */
  function Piece(n: nat, c: char): string {
    Run('\\', if c == '"' then 2 * n + 1 else n) + [c]
  }

  /** The text between the quotes. */
  function QuotedBody(arg: string): string {
    if |arg| == 0 then ""
    else
      var n := Slashes(arg);
      if n == |arg| then Run('\\', 2 * n)
      else Piece(n, arg[n]) + QuotedBody(arg[n + 1..])
  }

  function Escaped(arg: string): string {
    if NeedsQuoting(arg) then "\"" + QuotedBody(arg) + "\"" else arg
  }

  function Joined(args: seq<string>): string {
    if |args| == 0 then ""
    else if |args| == 1 then Escaped(args[0])
    else Escaped(args[0]) + " " + Joined(args[1..])
  }

  // ------------------------------------------------------------------
  // Reading arguments: the rules of CommandLineToArgvW after the program name
  // ------------------------------------------------------------------

  /**
    Runtimes differ on two quotes in a row inside a quoted part: two toggles, or
    one literal quote that stays in or leaves the quoted part.
   */
  datatype Dialect = TwoToggles | LiteralStays | LiteralLeaves

  /** An argument and what follows it. */
  datatype Token = Token(text: string, rest: string)

  function Then(text: string, t: Token): Token { Token(text + t.text, t.rest) }

  /**
    Reads up to an unquoted blank: 2n backslashes before a quote are n
    backslashes and a delimiter, 2n + 1 are n backslashes and a literal quote,
    and other backslashes are themselves.
   */
  function ReadArg(d: Dialect, s: string, quoted: bool): (t: Token)
    ensures |t.rest| <= |s|
    ensures s != "" && (quoted || !IsSpace(s[0])) ==> |t.rest| < |s|
    decreases |s|
  {
    if |s| == 0 || (!quoted && IsSpace(s[0])) then Token("", s)
    else
      var n := Slashes(s);
      if n < |s| && s[n] == '"' then
        var after := s[n + 1..];
        if n % 2 == 1 then Then(Run('\\', n / 2) + "\"", ReadArg(d, after, quoted))
        else if quoted && |after| > 0 && after[0] == '"' && d != TwoToggles then
          Then(Run('\\', n / 2) + "\"", ReadArg(d, after[1..], d == LiteralStays))
        else Then(Run('\\', n / 2), ReadArg(d, after, !quoted))
      else if n > 0 then Then(Run('\\', n), ReadArg(d, s[n..], quoted))
      else Then([s[0]], ReadArg(d, s[1..], quoted))
  }

  function Tokenize(d: Dialect, s: string): seq<string>
    decreases |s|
  {
    var t := SkipSpaces(s);
    if |t| == 0 then [] else [ReadArg(d, t, false).text] + Tokenize(d, ReadArg(d, t, false).rest)
  }

  // ------------------------------------------------------------------
  // The tokenizer inverts the printer
  // ------------------------------------------------------------------

  /** What may follow an argument: nothing, or the space before the next. */
  predicate Follows(rest: string) { rest == "" || rest[0] == ' ' }

  lemma {:induction false} SlashesOfRun(n: nat, s: string)
    requires s == "" || s[0] != '\\'
    ensures Slashes(Run('\\', n) + s) == n
  {
    var t := Run('\\', n) + s;
    if n > 0 {
      assert t[1..] == Run('\\', n - 1) + s;
      SlashesOfRun(n - 1, s);
    } else {
      assert t == s;
    }
  }

  /** One turn of the reader on a run of backslashes followed by c. */
  lemma ReadRun(d: Dialect, n: nat, c: char, s: string, quoted: bool)
    requires c != '\\' && (quoted || n > 0 || !IsSpace(c))
    ensures var line := Run('\\', n) + [c] + s;
            ReadArg(d, line, quoted) ==
            if c == '"' then
              if n % 2 == 1 then Then(Run('\\', n / 2) + "\"", ReadArg(d, s, quoted))
              else if quoted && s != "" && s[0] == '"' && d != TwoToggles then
                Then(Run('\\', n / 2) + "\"", ReadArg(d, s[1..], d == LiteralStays))
              else Then(Run('\\', n / 2), ReadArg(d, s, !quoted))
            else if n > 0 then Then(Run('\\', n), ReadArg(d, [c] + s, quoted))
            else Then([c], ReadArg(d, s, quoted))
  {
    var line := Run('\\', n) + [c] + s;
    assert line == Run('\\', n) + ([c] + s);
    SlashesOfRun(n, [c] + s);
    assert line[n + 1..] == s && line[n..] == [c] + s;
    assert line[0] == if n > 0 then '\\' else c;
    assert line[n] == c;
    if n == 0 { assert line[1..] == s; }
  }

  lemma ReadEnd(d: Dialect, rest: string)
    requires Follows(rest)
    ensures ReadArg(d, rest, false) == Token("", rest)
  {}

  /** The printed body, one run of backslashes at a time. */
  lemma BodyParts(a: string, tail: string)
    requires Slashes(a) < |a|
    ensures var n := Slashes(a);
            && a[n] != '\\' && a == Run('\\', n) + [a[n]] + a[n + 1..]
            && QuotedBody(a) + tail == Piece(n, a[n]) + (QuotedBody(a[n + 1..]) + tail)
  {
    var n := Slashes(a);
    SlashesAre(a);
    BodyOnce(a);
    hide *;
    CutAt(a, n);
    Assoc(Piece(n, a[n]), QuotedBody(a[n + 1..]), tail);
  }

  lemma CutAt(a: string, n: nat)
    requires n < |a|
    ensures a == a[..n] + [a[n]] + a[n + 1..]
  {}

  lemma BodyOnce(a: string)
    requires Slashes(a) < |a|
    ensures QuotedBody(a) == Piece(Slashes(a), a[Slashes(a)]) + QuotedBody(a[Slashes(a) + 1..])
  {
    hide Piece, Slashes, Run;
    var n := Slashes(a);
    assert |a| > 0 && n != |a|;
  }

  /** The reader undoes one piece. */
  lemma ReadPiece(d: Dialect, n: nat, c: char, s: string)
    requires c != '\\'
    ensures ReadArg(d, Piece(n, c) + s, true) == Then(Run('\\', n) + [c], ReadArg(d, s, true))
  {
    hide ReadArg;
    var t := ReadArg(d, s, true);
    if c == '"' {
      ReadRun(d, 2 * n + 1, c, s, true);
    } else {
      ReadRun(d, n, c, s, true);
      ReadRun(d, 0, c, s, true);
      assert Run('\\', 0) + [c] + s == [c] + s;
      Assoc(Run('\\', n), [c], t.text);
      assert Run('\\', 0) + [c] == [c];
    }
  }

  lemma ReadClose(d: Dialect, n: nat, rest: string)
    requires Follows(rest)
    ensures ReadArg(d, Run('\\', 2 * n) + ("\"" + rest), true) == Token(Run('\\', n), rest)
  {
    hide ReadArg;
    ReadRun(d, 2 * n, '"', rest, true);
    ReadEnd(d, rest);
    Assoc(Run('\\', 2 * n), "\"", rest);
    assert Run('\\', n) + "" == Run('\\', n);
  }

  /** Past the opening quote, the reader collects exactly the argument. */
  lemma {:induction false} ReadBody(d: Dialect, a: string, rest: string)
    requires Follows(rest)
    ensures ReadArg(d, QuotedBody(a) + ("\"" + rest), true) == Token(a, rest)
    decreases |a|
  {
    hide *;
    var n := Slashes(a);
    if n == |a| {
      BodyOfRun(a);
      SlashesAre(a);
      assert a == a[..n];
      ReadClose(d, n, rest);
    } else {
      BodyParts(a, "\"" + rest);
      ReadBody(d, a[n + 1..], rest);
      ReadPiece(d, n, a[n], QuotedBody(a[n + 1..]) + ("\"" + rest));
      ThenIs(Run('\\', n) + [a[n]], a[n + 1..], rest);
    }
  }

  lemma ThenIs(text: string, more: string, rest: string)
    ensures Then(text, Token(more, rest)) == Token(text + more, rest)
  {}

  lemma BodyOfRun(a: string)
    requires Slashes(a) == |a|
    ensures QuotedBody(a) == Run('\\', 2 * |a|)
  {}

  /** Outside quotes, backslashes before an ordinary character are themselves. */
  lemma ReadOrdinary(d: Dialect, n: nat, c: char, s: string)
    requires c != '\\' && !IsSpecial(c)
    ensures ReadArg(d, Run('\\', n) + [c] + s, false) == Then(Run('\\', n) + [c], ReadArg(d, s, false))
  {
    hide ReadArg;
    ReadRun(d, n, c, s, false);
    ReadRun(d, 0, c, s, false);
    assert Run('\\', 0) + [c] + s == [c] + s;
    Assoc(Run('\\', n), [c], ReadArg(d, s, false).text);
    assert Run('\\', 0) + [c] == [c];
  }

  lemma ReadLastRun(d: Dialect, n: nat, rest: string)
    requires Follows(rest)
    ensures ReadArg(d, Run('\\', n) + rest, false) == Token(Run('\\', n), rest)
  {
    hide ReadArg;
    ReadEnd(d, rest);
    if n == 0 {
      assert Run('\\', 0) + rest == rest;
    } else if rest == "" {
      ReadOnlyRun(d, n);
      assert Run('\\', n) + rest == Run('\\', n);
    } else {
      assert rest == [' '] + rest[1..];
      assert Run('\\', n) + rest == Run('\\', n) + [' '] + rest[1..];
      ReadRun(d, n, ' ', rest[1..], false);
      assert Run('\\', n) + "" == Run('\\', n);
    }
  }

  /** An argument with nothing special in it is read as it stands. */
  lemma {:induction false} ReadPlain(d: Dialect, a: string, rest: string)
    requires Follows(rest) && forall c <- a :: !IsSpecial(c)
    ensures ReadArg(d, a + rest, false) == Token(a, rest)
    decreases |a|
  {
    hide *;
    var n := Slashes(a);
    SlashesAre(a);
    if n == |a| {
      assert a == a[..n];
      ReadLastRun(d, n, rest);
    } else {
      CutAt(a, n);
      assert a[n] in a;
      ReadPlain(d, a[n + 1..], rest);
      ReadOrdinary(d, n, a[n], a[n + 1..] + rest);
      Assoc(Run('\\', n) + [a[n]], a[n + 1..], rest);
      ThenIs(Run('\\', n) + [a[n]], a[n + 1..], rest);
    }
  }

  lemma ReadOnlyRun(d: Dialect, n: nat)
    requires n > 0
    ensures ReadArg(d, Run('\\', n), false) == Token(Run('\\', n), "")
  {
    SlashesOfRun(n, "");
    assert Run('\\', n) + "" == Run('\\', n);
    assert Run('\\', n)[n..] == "";
  }

  lemma ReadOpen(d: Dialect, a: string, rest: string)
    requires Follows(rest)
    ensures ReadArg(d, "\"" + QuotedBody(a) + "\"" + rest, false) == Token(a, rest)
  {
    hide ReadArg, QuotedBody;
    var s := QuotedBody(a) + ("\"" + rest);
    ReadRun(d, 0, '"', s, false);
    ReadBody(d, a, rest);
    ThenIs(Run('\\', 0), a, rest);
    assert Run('\\', 0) + a == a;
    assert "\"" + QuotedBody(a) + "\"" + rest == Run('\\', 0) + ['"'] + s;
  }

  lemma ReadEscaped(d: Dialect, a: string, rest: string)
    requires Follows(rest)
    ensures var line := Escaped(a) + rest;
            line != "" && !IsSpace(line[0]) && ReadArg(d, line, false) == Token(a, rest)
  {
    hide ReadArg, QuotedBody;
    if NeedsQuoting(a) {
      ReadOpen(d, a, rest);
    } else {
      assert a[0] in a;
      ReadPlain(d, a, rest);
    }
  }

  /** Every reader of the documented family gets back exactly the vector that was joined. */
  lemma {:induction false} TokenizeJoined(d: Dialect, args: seq<string>)
    ensures Tokenize(d, Joined(args)) == args
  {
    hide ReadArg, Escaped;
    if args != [] {
      var rest := if |args| == 1 then "" else " " + Joined(args[1..]);
      ReadEscaped(d, args[0], rest);
      assert Joined(args) == Escaped(args[0]) + rest;
      TokenizeJoined(d, args[1..]);
      if |args| > 1 { SkipOneSpace(Joined(args[1..])); }
    }
  }

  lemma SkipOneSpace(s: string)
    ensures SkipSpaces(" " + s) == SkipSpaces(s)
  {
    assert (" " + s)[1..] == s;
  }

  // ------------------------------------------------------------------
  // The printers of argv.c
  // ------------------------------------------------------------------

  method ArgvNeedsQuoting(arg: string) returns (b: bool)
    ensures b == NeedsQuoting(arg)
    ensures b <==> |arg| == 0 || exists i :: 0 <= i < |arg| && arg[i] as int in {0x20, 0x09, 0x0A, 0x0B, 0x22}
  {
    if arg == "" {
      return true;
    }
    for i := 0 to |arg|
      invariant forall j :: 0 <= j < i ==> !IsSpecial(arg[j])
    {
      if IsSpecial(arg[i]) {
        return true;
      }
    }
    return false;
  }

  /** Room is kept for the terminator. */
  method ArgvPut(out: array<char>, base: nat, pos: nat, outSize: int, c: char) returns (ok: bool)
    requires (outSize <= 0 || base + outSize <= out.Length)
    modifies out
    ensures ok <==> pos < outSize - 1
    ensures out[..] == if ok then Overwrite(old(out[..]), base + pos, [c]) else old(out[..])
  {
    if pos >= outSize - 1 {
      return false;
    }
    hide Overwrite;
    ghost var buf := out[..];
    out[base + pos] := c;
    OverwriteIs(buf, base + pos, [c], out[..]);
    ok := true;
  }

  method ArgvPutRun(out: array<char>, base: nat, pos: nat, outSize: int, c: char, count: nat) returns (ok: bool)
    requires (outSize <= 0 || base + outSize <= out.Length) && pos <= outSize - 1
    modifies out
    ensures ok <==> pos + count <= outSize - 1
    ensures ok ==> out[..] == Overwrite(old(out[..]), base + pos, Run(c, count))
    ensures Confined(old(out[..]), out[..], base, outSize)
  {
    hide Overwrite, Confined;
    ghost var buf := out[..];
    OverwriteNone(buf, base + pos);
    for i := 0 to count
      invariant pos + i <= outSize - 1
      invariant out[..] == Overwrite(buf, base + pos, Run(c, i))
    {
      OverwriteIsConfined(buf, base + pos, Run(c, i), base, outSize);
      ok := ArgvPut(out, base, pos + i, outSize, c);
      if !ok {
        return;
      }
      OverwriteTwice(buf, base + pos, Run(c, i), [c]);
      assert Run(c, i) + [c] == Run(c, i + 1);
    }
    OverwriteIsConfined(buf, base + pos, Run(c, count), base, outSize);
    ok := true;
  }

  /** -1 exactly when the text and its terminator do not fit. */
  ghost predicate Printed(was: seq<char>, now: seq<char>, base: nat, outSize: int, text: string, n: int) {
    if outSize < |text| + 1 then n == -1 && (if outSize < 1 then now == was else Confined(was, now, base, outSize))
    else n == |text| && base + outSize <= |was| && now == Overwrite(was, base, text + [NUL])
  }

  /** How much a printer has written, and how that ends. */
  lemma PrintedWhole(buf: seq<char>, base: nat, outSize: int, text: string, now: seq<char>)
    requires base + outSize <= |buf| && |text| < outSize
    requires now == Overwrite(Overwrite(buf, base, text), base + |text|, [NUL])
    ensures Printed(buf, now, base, outSize, text, |text|)
  {
    OverwriteTwice(buf, base, text, [NUL]);
  }

  lemma PrintedPart(buf: seq<char>, base: nat, outSize: int, done: string, now: seq<char>, text: string)
    requires 0 < outSize && base + outSize <= |buf| && |done| <= outSize - 1 < |text|
    requires Confined(Overwrite(buf, base, done), now, base, outSize)
    ensures Printed(buf, now, base, outSize, text, -1)
  {
    OverwriteIsConfined(buf, base, done, base, outSize);
    ConfinedTwice(buf, Overwrite(buf, base, done), now, base, outSize);
  }

  /** A printer that has stored `done` stores one more piece. */
  lemma Extend(buf: seq<char>, base: nat, done: string, piece: string)
    requires base + |done| + |piece| <= |buf|
    ensures Overwrite(Overwrite(buf, base, done), base + |done|, piece) == Overwrite(buf, base, done + piece)
  {
    OverwriteTwice(buf, base, done, piece);
  }

  /** One run of backslashes and the character after it, read from arg at i. */
  method PutPiece(out: array<char>, base: nat, pos: nat, outSize: int, slashes: nat, c: char) returns (ok: bool)
    requires (outSize <= 0 || base + outSize <= out.Length) && pos <= outSize - 1
    modifies out
    ensures ok <==> pos + |Piece(slashes, c)| <= outSize - 1
    ensures ok ==> out[..] == Overwrite(old(out[..]), base + pos, Piece(slashes, c))
    ensures Confined(old(out[..]), out[..], base, outSize)
  {
    hide Overwrite, Confined, Run;
    ghost var buf := out[..];
    var count := if c == '"' then slashes * 2 + 1 else slashes;
    ok := ArgvPutRun(out, base, pos, outSize, '\\', count);
    if !ok {
      return;
    }
    ghost var mid := out[..];
    ok := ArgvPut(out, base, pos + count, outSize, c);
    if ok {
      OverwriteTwice(buf, base + pos, Run('\\', count), [c]);
      OverwriteIsConfined(mid, base + pos + count, [c], base, outSize);
      ConfinedTwice(buf, mid, out[..], base, outSize);
    }
  }

  method CountSlashes(arg: string, i: nat) returns (slashes: nat)
    requires i <= |arg|
    ensures slashes == Slashes(arg[i..])
  {
    slashes := 0;
    while i + slashes < |arg| && arg[i + slashes] == '\\'
      invariant i + slashes <= |arg| && Slashes(arg[i..]) == slashes + Slashes(arg[i + slashes..])
    {
      assert arg[i + slashes..][1..] == arg[i + slashes + 1..];
      slashes := slashes + 1;
    }
  }

  lemma BodyAt(arg: string, i: nat)
    requires i <= |arg|
    ensures var n := Slashes(arg[i..]);
            && i + n <= |arg|
            && (i + n == |arg| ==> QuotedBody(arg[i..]) == Run('\\', 2 * n))
            && (i + n < |arg| ==>
                  QuotedBody(arg[i..]) == Piece(n, arg[i + n]) + QuotedBody(arg[i + n + 1..]))
  {
    hide *;
    var a := arg[i..];
    var n := Slashes(a);
    if n == |a| {
      BodyOfRun(a);
    } else {
      BodyOnce(a);
      assert a[n + 1..] == arg[i + n + 1..];
    }
  }

  /** The quoted branch, after the opening quote has been stored at base. */
  method PutBody(arg: string, out: array<char>, base: nat, outSize: int) returns (pos: nat, ok: bool)
    requires (outSize <= 0 || base + outSize <= out.Length) && 1 <= outSize - 1
    modifies out
    ensures ok <==> 1 + |QuotedBody(arg)| <= outSize - 1
    ensures ok ==> pos == 1 + |QuotedBody(arg)| && out[..] == Overwrite(old(out[..]), base + 1, QuotedBody(arg))
    ensures Confined(old(out[..]), out[..], base, outSize)
  {
    hide *;
    ghost var buf, body, done: string := out[..], QuotedBody(arg), "";
    var i := 0;
    pos, ok := 1, true;
    OverwriteNone(buf, base + 1);
    assert arg[0..] == arg;
    while i < |arg|
      invariant i <= |arg| && pos == 1 + |done| <= outSize - 1 && ok
      invariant body == done + QuotedBody(arg[i..])
      invariant out[..] == Overwrite(buf, base + 1, done)
    {
      OverwriteIsConfined(buf, base + 1, done, base, outSize);
      ghost var mid := out[..];
      var slashes := CountSlashes(arg, i);
      BodyAt(arg, i);
      ghost var last := i + slashes == |arg|;
      ghost var piece := if last then Run('\\', 2 * slashes) else Piece(slashes, arg[i + slashes]);
      ghost var next := if last then |arg| else i + slashes + 1;
      BodyOfNothing(arg, next);
      assert body == done + piece + QuotedBody(arg[next..]);
      if i + slashes == |arg| {
        ok := ArgvPutRun(out, base, pos, outSize, '\\', slashes * 2);
        pos := pos + slashes * 2;
        i := |arg|;
      } else {
        var c := arg[i + slashes];
        ok := PutPiece(out, base, pos, outSize, slashes, c);
        PieceLength(slashes, c);
        pos := pos + (if c == '"' then slashes * 2 + 2 else slashes + 1);
        i := i + slashes + 1;
      }
      ConfinedTwice(buf, mid, out[..], base, outSize);
      if !ok { return; }
      OverwriteTwice(buf, base + 1, done, piece);
      done := done + piece;
    }
    OverwriteIsConfined(buf, base + 1, done, base, outSize);
    BodyOfNothing(arg, i);
    assert body == done;
  }

  lemma PieceLength(n: nat, c: char)
    ensures |Piece(n, c)| == if c == '"' then 2 * n + 2 else n + 1
  {}

  lemma BodyOfNothing(arg: string, i: nat)
    requires i <= |arg|
    ensures i == |arg| ==> QuotedBody(arg[i..]) == ""
    ensures arg == "" ==> QuotedBody(arg) == ""
  {}

  method ArgvEscapeArg(arg: string, out: array<char>, base: nat, outSize: int) returns (n: int)
    requires (outSize <= 0 || base + outSize <= out.Length)
    modifies out
    ensures Printed(old(out[..]), out[..], base, outSize, Escaped(arg), n)
  {
    hide Overwrite, QuotedBody, NeedsQuoting, Run, Confined;
    if outSize < 1 {
      return -1;
    }
    ghost var buf := out[..];
    var quoting := ArgvNeedsQuoting(arg);
    OverwriteNone(buf, base);
    var pos := 0;
    if !quoting {
      while pos < |arg|
        invariant pos <= |arg| && pos <= outSize - 1
        invariant out[..] == Overwrite(buf, base, arg[..pos])
      {
        var ok := ArgvPut(out, base, pos, outSize, arg[pos]);
        if !ok {
          SameIsConfined(out[..], base, outSize);
          PrintedPart(buf, base, outSize, arg[..pos], out[..], arg);
          return -1;
        }
        Extend(buf, base, arg[..pos], [arg[pos]]);
        assert arg[..pos] + [arg[pos]] == arg[..pos + 1];
        pos := pos + 1;
      }
      assert arg[..pos] == arg;
      PutNul(out, base, pos);
      PrintedWhole(buf, base, outSize, arg, out[..]);
      return pos;
    }
    var ok := ArgvPut(out, base, 0, outSize, '"');
    ghost var text := "\"" + QuotedBody(arg) + "\"";
    if !ok {
      SameIsConfined(out[..], base, outSize);
      PrintedPart(buf, base, outSize, "", out[..], text);
      return -1;
    }
    pos, ok := PutBody(arg, out, base, outSize);
    if !ok {
      PrintedPart(buf, base, outSize, "\"", out[..], text);
      return -1;
    }
    Extend(buf, base, "\"", QuotedBody(arg));
    ok := ArgvPut(out, base, pos, outSize, '"');
    if !ok {
      SameIsConfined(out[..], base, outSize);
      PrintedPart(buf, base, outSize, "\"" + QuotedBody(arg), out[..], text);
      return -1;
    }
    Extend(buf, base, "\"" + QuotedBody(arg), "\"");
    pos := pos + 1;
    PutNul(out, base, pos);
    PrintedWhole(buf, base, outSize, text, out[..]);
    return pos;
  }

  lemma SameIsConfined(buf: seq<char>, base: nat, size: nat)
    ensures Confined(buf, buf, base, size)
  {}

  method PutNul(out: array<char>, base: nat, pos: nat)
    requires base + pos < out.Length
    modifies out
    ensures out[..] == Overwrite(old(out[..]), base + pos, [NUL])
  {
    ghost var buf := out[..];
    out[base + pos] := NUL;
    OverwriteIs(buf, base + pos, [NUL], out[..]);
  }

  /** What is still to be joined once i arguments have been printed. */
  function Remaining(args: seq<string>, i: nat): string
    requires i <= |args|
  {
    if i == |args| then "" else if i == 0 then Joined(args) else " " + Joined(args[i..])
  }

  lemma RemainingStep(args: seq<string>, i: nat)
    requires i < |args|
    ensures Remaining(args, i) == (if i > 0 then " " else "") + Escaped(args[i]) + Remaining(args, i + 1)
    ensures Remaining(args, |args|) == "" && Remaining(args, 0) == Joined(args)
  {
    hide Escaped;
    var rest := args[i..];
    assert rest[0] == args[i];
    if |rest| > 1 {
      assert rest[1..] == args[i + 1..];
      Assoc(Escaped(args[i]), " ", Joined(rest[1..]));
    }
    if i == 0 { assert rest == args && "" + Escaped(args[0]) == Escaped(args[0]); }
    Assoc(" ", Escaped(args[i]), Remaining(args, i + 1));
  }

  method ArgvJoin(args: seq<string>, out: array<char>, outSize: int) returns (n: int)
    requires outSize <= 0 || outSize <= out.Length
    modifies out
    ensures Printed(old(out[..]), out[..], 0, outSize, Joined(args), n)
  {
    hide Overwrite, Confined, Joined, Escaped, Remaining, Printed;
    ghost var buf, text, done: string := out[..], Joined(args), "";
    if outSize < 1 {
      PrintedNowhere(buf, 0, outSize, text);
      return -1;
    }
    PutNul(out, 0, 0);
    assert done + [NUL] == [NUL];
    var pos := 0;
    JoinedStart(args);
    for i := 0 to |args|
      invariant pos == |done| <= outSize - 1
      invariant text == done + Remaining(args, i)
      invariant out[..] == Overwrite(buf, 0, done + [NUL])
    {
      RemainingStep(args, i);
      if i > 0 {
        var ok := ArgvPut(out, 0, pos, outSize, ' ');
        if !ok {
          ClippedJoin(buf, outSize, done, out[..], out[..], text);
          return -1;
        }
        OverwriteLast(buf, 0, done, NUL, " ");
        Assoc(done, " ", Escaped(args[i]) + Remaining(args, i + 1));
        Assoc(" ", Escaped(args[i]), Remaining(args, i + 1));
        pos, done := pos + 1, done + " ";
      } else {
        assert "" + Escaped(args[i]) == Escaped(args[i]);
      }
      ghost var mid := out[..];
      assert text == done + (Escaped(args[i]) + Remaining(args, i + 1));
      n := ArgvEscapeArg(args[i], out, pos, outSize - pos);
      EscapedAt(mid, out[..], pos, outSize - pos, Escaped(args[i]), n);
      if n < 0 {
        ConfinedWider(mid, out[..], pos, outSize - pos, 0, outSize);
        ClippedJoin(buf, outSize, done, mid, out[..], text);
        return -1;
      }
      if i > 0 {
        AfterSpace(buf, done, mid, Escaped(args[i]) + [NUL]);
      } else {
        OverwriteLast(buf, 0, done, NUL, Escaped(args[i]) + [NUL]);
      }
      Assoc(done, Escaped(args[i]), [NUL]);
      Assoc(done, Escaped(args[i]), Remaining(args, i + 1));
      pos, done := pos + n, done + Escaped(args[i]);
    }
    JoinedEnd(args);
    assert text == done;
    PutNul(out, 0, pos);
    OverwriteLast(buf, 0, done, NUL, [NUL]);
    PrintedHere(buf, 0, outSize, text, out[..]);
    n := pos;
  }

  lemma PrintedNowhere(buf: seq<char>, base: nat, outSize: int, text: string)
    requires outSize < 1
    ensures Printed(buf, buf, base, outSize, text, -1)
  {}

  lemma PrintedHere(buf: seq<char>, base: nat, outSize: int, text: string, now: seq<char>)
    requires base + outSize <= |buf| && |text| < outSize && now == Overwrite(buf, base, text + [NUL])
    ensures Printed(buf, now, base, outSize, text, |text|)
  {}

  lemma JoinedStart(args: seq<string>)
    ensures Remaining(args, 0) == Joined(args)
  {}

  lemma JoinedEnd(args: seq<string>)
    ensures Remaining(args, |args|) == ""
  {}

  /** What a call of ArgvEscapeArg left behind. */
  lemma EscapedAt(was: seq<char>, now: seq<char>, base: nat, outSize: int, text: string, n: int)
    requires Printed(was, now, base, outSize, text, n) && 1 <= outSize
    ensures n < 0 <==> |text| > outSize - 1
    ensures n < 0 ==> Confined(was, now, base, outSize)
    ensures n >= 0 ==> n == |text| && base + outSize <= |was| && now == Overwrite(was, base, text + [NUL])
  {}

  lemma ConfinedWider(was: seq<char>, now: seq<char>, base: nat, size: nat, base': nat, size': nat)
    requires Confined(was, now, base, size) && base' <= base && base + size <= base' + size'
    ensures Confined(was, now, base', size')
  {}

  /** The text does not fit, and only the buffer has been touched. */
  lemma ClippedJoin(buf: seq<char>, outSize: int, done: string, mid: seq<char>, now: seq<char>, text: string)
    requires 0 < outSize <= |buf| && |done| <= outSize - 1 < |text|
    requires mid == Overwrite(buf, 0, done + [NUL]) || mid == Overwrite(buf, 0, done)
    requires mid == now || Confined(mid, now, 0, outSize)
    ensures Printed(buf, now, 0, outSize, text, -1)
  {}

  lemma AfterSpace(buf: seq<char>, done: string, mid: seq<char>, piece: string)
    requires |done| + |piece| <= |buf| && mid == Overwrite(buf, 0, done)
    ensures Overwrite(mid, |done|, piece) == Overwrite(buf, 0, done + piece)
  {
    OverwriteTwice(buf, 0, done, piece);
  }
}
