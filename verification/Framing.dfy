/**
  ProcessBuffer of src/mcp-w32s.c: bytes arrive in chunks, lines go to the handler;
  and what this does to printed commands.
 */
module Framing {
  import opened Text
  import opened Argv
  import opened JsonText
  import opened JsonCommand
  import JsonReader

  const BUFFER: nat := 8192

  // ------------------------------------------------------------------
  // Lines
  // ------------------------------------------------------------------

  /** What a C string that starts like this holds. */
  function CText(s: string): (r: string)
    ensures NUL !in s ==> r == s
  {
    if |s| == 0 || s[0] == NUL then ""
    else
      assert s == [s[0]] + s[1..];
      [s[0]] + CText(s[1..])
  }

  /** The pending text after one more byte; a byte for which there is no room is dropped. */
  function Kept(pending: string, c: char): string {
    if c == '\n' then "" else if |pending| < BUFFER - 1 then pending + [c] else pending
  }

  function Lines(pending: string, input: string): seq<string>
    decreases |input|
  {
    if |input| == 0 then []
    else (if input[0] == '\n' then [CText(pending)] else []) + Lines(Kept(pending, input[0]), input[1..])
  }

  function Pending(pending: string, input: string): string
    decreases |input|
  {
    if |input| == 0 then pending else Pending(Kept(pending, input[0]), input[1..])
  }

  class LineBuffer {
    const data: array<char>
    var pos: nat
    var handled: seq<string>

    ghost predicate Valid()
      reads this
    {
      data.Length == BUFFER && pos < BUFFER
    }

    ghost function Contents(): string
      reads this, data
      requires Valid()
    {
      data[..pos]
    }

    constructor ()
      ensures Valid() && Contents() == "" && handled == [] && fresh(data)
    {
      data := new char[BUFFER];
      pos, handled := 0, [];
    }

    /** Feeds a chunk; `handled` are the lines that the handler has been given. */
    method ProcessBuffer(input: string) returns (lines: nat)
      requires Valid()
      modifies this, data
      ensures Valid()
      ensures handled == old(handled) + Lines(old(Contents()), input)
      ensures Contents() == Pending(old(Contents()), input)
      ensures lines == |Lines(old(Contents()), input)|
    {
      hide CText;
      ghost var was, before := Contents(), handled;
      lines := 0;
      var i := 0;
      assert input[0..] == input;
      while i < |input|
        invariant i <= |input| && Valid() && |before| <= |handled|
        invariant before + Lines(was, input) == handled + Lines(Contents(), input[i..])
        invariant Pending(was, input) == Pending(Contents(), input[i..])
        invariant lines + |before| == |handled|
      {
        ghost var now, past := Contents(), handled;
        At(input, i, now, past);
        if input[i] == '\n' {
          data[pos] := NUL;
          assert data[..pos] == now;
          handled := handled + [CText(data[..pos])];
          pos := 0;
          lines := lines + 1;
        } else if pos < BUFFER - 1 {
          data[pos] := input[i];
          pos := pos + 1;
          assert Contents() == now + [input[i]];
        }
        assert Contents() == Kept(now, input[i]);
        i := i + 1;
      }
    }
  }

  lemma At(input: string, i: nat, now: string, past: seq<string>)
    requires i < |input|
    ensures Pending(now, input[i..]) == Pending(Kept(now, input[i]), input[i + 1..])
    ensures past + Lines(now, input[i..])
            == (if input[i] == '\n' then past + [CText(now)] else past) + Lines(Kept(now, input[i]), input[i + 1..])
  {
    assert input[i..][1..] == input[i + 1..];
    hide CText, Kept;
    var more := Lines(Kept(now, input[i]), input[i + 1..]);
    Assoc(past, [CText(now)], more);
    assert past + ([] + more) == past + more;
  }

  // ------------------------------------------------------------------
  // Where the chunks are cut does not matter
  // ------------------------------------------------------------------

  lemma {:induction false} FeedsJoin(pending: string, a: string, b: string)
    ensures Lines(pending, a + b) == Lines(pending, a) + Lines(Pending(pending, a), b)
    ensures Pending(pending, a + b) == Pending(Pending(pending, a), b)
    decreases |a|
  {
    hide *;
    if |a| == 0 {
      assert a + b == b;
      NoLines(pending);
      assert [] + Lines(pending, b) == Lines(pending, b);
    } else {
      assert (a + b)[1..] == a[1..] + b && (a + b)[0] == a[0];
      OneByte(pending, a);
      OneByte(pending, a + b);
      FeedsJoin(Kept(pending, a[0]), a[1..], b);
      var head := if a[0] == '\n' then [CText(pending)] else [];
      var next := Kept(pending, a[0]);
      Assoc(head, Lines(next, a[1..]), Lines(Pending(next, a[1..]), b));
    }
  }

  lemma OneByte(pending: string, s: string)
    requires |s| > 0
    ensures Lines(pending, s) == (if s[0] == '\n' then [CText(pending)] else []) + Lines(Kept(pending, s[0]), s[1..])
    ensures Pending(pending, s) == Pending(Kept(pending, s[0]), s[1..])
  {
    hide CText, Kept;
  }

  function Whole(chunks: seq<string>): string { if |chunks| == 0 then "" else chunks[0] + Whole(chunks[1..]) }

  /** The lines of one chunk after another. */
  function Handled(pending: string, chunks: seq<string>): seq<string>
    decreases |chunks|
  {
    if |chunks| == 0 then [] else Lines(pending, chunks[0]) + Handled(Pending(pending, chunks[0]), chunks[1..])
  }

  lemma {:induction false} CutsDoNotMatter(pending: string, chunks: seq<string>)
    ensures Handled(pending, chunks) == Lines(pending, Whole(chunks))
    decreases |chunks|
  {
    hide Lines, Pending;
    if |chunks| == 0 {
      assert Lines(pending, "") == [] by { NoLines(pending); }
    } else {
      FeedsJoin(pending, chunks[0], Whole(chunks[1..]));
      CutsDoNotMatter(Pending(pending, chunks[0]), chunks[1..]);
    }
  }

  lemma NoLines(pending: string)
    ensures Lines(pending, "") == [] && Pending(pending, "") == pending
  {}

  // ------------------------------------------------------------------
  // Long lines
  // ------------------------------------------------------------------

  function Shortened(line: string): string { if |line| < BUFFER then line else line[..BUFFER - 1] }

  predicate OneLine(line: string) { forall i :: 0 <= i < |line| ==> line[i] != '\n' && line[i] != NUL }

  lemma {:induction false} LineIsKept(pending: string, line: string)
    requires OneLine(line) && |pending| < BUFFER
    ensures Lines(pending, line) == [] && Pending(pending, line) == Shortened(pending + line)
    decreases |line|
  {
    hide Shortened, CText, Lines, Pending;
    if |line| == 0 {
      assert pending + line == pending;
      NoLines(pending);
      ShortEnough(pending, line);
    } else {
      OneByte(pending, line);
      var next := Kept(pending, line[0]);
      LineIsKept(next, line[1..]);
      if |pending| < BUFFER - 1 {
        assert next + line[1..] == pending + line;
      } else {
        ShortEnough(pending, line);
        ShortEnough(pending, line[1..]);
      }
    }
  }

  lemma ShortEnough(pending: string, more: string)
    ensures |pending| == BUFFER - 1 ==> Shortened(pending + more) == pending
    ensures |pending| < BUFFER ==> Shortened(pending) == pending
  {}

  /** A line comes through whole if and only if it is at most 8191 bytes long; else its front does. */
  lemma LineComesThrough(line: string, rest: string)
    requires OneLine(line)
    ensures Lines("", line + "\n" + rest) == [if |line| <= 8191 then line else line[..8191]] + Lines("", rest)
  {
    LineIsKept("", line);
    assert "" + line == line;
    FeedsJoin("", line, "\n" + rest);
    Assoc(line, "\n", rest);
    assert NUL !in Shortened(line);
    LineEnds(Shortened(line), rest);
    hide Lines, Pending, CText;
  }

  lemma LineEnds(pending: string, rest: string)
    requires NUL !in pending
    ensures Lines(pending, "\n" + rest) == [pending] + Lines("", rest)
  {
    assert ("\n" + rest)[1..] == rest;
  }

  // ------------------------------------------------------------------
  // Commands survive the wire
  // ------------------------------------------------------------------

  /** A command as its sender has it: pairs that the device can hold, under names of printable characters. */
  predicate Sendable(ps: seq<Pair>) {
    && AllFit(BLANK_COMMAND, ps)
    && (forall i :: 0 <= i < |ps| ==> OneLine(ps[i].key))
    && |PrintObject(ps)| <= 8191
  }

  function Wire(cmds: seq<seq<Pair>>): string {
    if |cmds| == 0 then "" else PrintObject(cmds[0]) + "\n" + Wire(cmds[1..])
  }

  lemma DecimalIsOneLine(n: nat)
    ensures OneLine(Digits.Decimal(n))
  {
    DecimalIsNumeral(n);
  }

  lemma ScalarIsOneLine(v: Scalar)
    ensures OneLine(PrintScalar(v))
  {
    match v
    case Str(s) =>
      EscapedEnds(s, "");
      hide EscapeText, StringEnd;
    case Num(n) =>
      DecimalIsOneLine(if n < 0 then -n else n);
      hide Digits.Decimal;
    case _ =>
  }

  lemma {:induction false} ItemsAreOneLine(vs: seq<Scalar>)
    ensures OneLine(PrintItems(vs))
  {
    hide PrintScalar;
    if |vs| > 0 {
      ScalarIsOneLine(vs[0]);
      ItemsAreOneLine(vs[1..]);
    }
  }

  lemma PairIsOneLine(p: Pair)
    requires OneLine(p.key)
    ensures OneLine(PrintPair(p))
  {
    hide PrintScalar, PrintItems;
    match p.field
    case One(v) => ScalarIsOneLine(v);
    case Many(items) => ItemsAreOneLine(items);
  }

  lemma {:induction false} PairsAreOneLine(ps: seq<Pair>)
    requires forall i :: 0 <= i < |ps| ==> OneLine(ps[i].key)
    ensures OneLine(PrintPairs(ps))
  {
    hide PrintPair;
    if |ps| > 0 {
      PairIsOneLine(ps[0]);
      PairsAreOneLine(ps[1..]);
    }
  }

  lemma {:induction false} WireIsHandled(cmds: seq<seq<Pair>>)
    requires forall i :: 0 <= i < |cmds| ==> Sendable(cmds[i])
    ensures var lines := Lines("", Wire(cmds));
            && |lines| == |cmds|
            && forall i :: 0 <= i < |cmds| ==> lines[i] == PrintObject(cmds[i])
  {
    hide Lines, PrintPairs;
    if |cmds| == 0 {
      NoLines("");
    } else {
      PairsAreOneLine(cmds[0]);
      LineComesThrough(PrintObject(cmds[0]), Wire(cmds[1..]));
      WireIsHandled(cmds[1..]);
    }
  }

  /**
    Any list of sendable commands, printed one to a line and cut into chunks
    anywhere, reaches the parser as exactly that list: as many lines, in order, each
    parsed as its command means.
   */
  lemma CommandsSurvive(cmds: seq<seq<Pair>>, chunks: seq<string>)
    requires forall i :: 0 <= i < |cmds| ==> Sendable(cmds[i])
    requires Whole(chunks) == Wire(cmds)
    ensures var lines := Handled("", chunks);
            && |lines| == |cmds|
            && forall i :: 0 <= i < |cmds| ==> Object(lines[i]) == Good(Meaning(BLANK_COMMAND, cmds[i]), "")
  {
    CutsDoNotMatter("", chunks);
    WireIsHandled(cmds);
    hide Handled, Lines, Object, Meaning;
    var lines := Handled("", chunks);
    forall i | 0 <= i < |cmds| ensures Object(lines[i]) == Good(Meaning(BLANK_COMMAND, cmds[i]), "") {
      ObjectIsTaken(cmds[i], "");
      assert PrintObject(cmds[i]) + "" == PrintObject(cmds[i]);
    }
  }

  method FeedAll(buffer: LineBuffer, chunks: seq<string>)
    requires buffer.Valid()
    modifies buffer, buffer.data
    ensures buffer.Valid() && buffer.handled == old(buffer.handled) + Handled(old(buffer.Contents()), chunks)
  {
    hide Lines, Pending;
    ghost var all := buffer.handled + Handled(buffer.Contents(), chunks);
    var k := 0;
    assert chunks[0..] == chunks;
    while k < |chunks|
      invariant k <= |chunks| && buffer.Valid()
      invariant all == buffer.handled + Handled(buffer.Contents(), chunks[k..])
    {
      assert chunks[k..][1..] == chunks[k + 1..];
      ghost var past, pending := buffer.handled, buffer.Contents();
      var n := buffer.ProcessBuffer(chunks[k]);
      Assoc(past, Lines(pending, chunks[k]), Handled(Pending(pending, chunks[k]), chunks[k + 1..]));
      k := k + 1;
    }
    assert chunks[k..] == [];
    assert Handled(buffer.Contents(), []) == [];
  }

  method ParseAll(lines: seq<string>) returns (commands: seq<Command>, refused: nat)
    ensures |commands| + refused == |lines|
    ensures (forall i :: 0 <= i < |lines| ==> Object(lines[i]).Good?) ==>
              refused == 0 && forall i :: 0 <= i < |commands| ==> commands[i] == Object(lines[i]).value
  {
    hide Object;
    commands, refused := [], 0;
    for i := 0 to |lines|
      invariant |commands| + refused == i
      invariant (forall j :: 0 <= j < i ==> Object(lines[j]).Good?) ==>
                  refused == 0 && forall j :: 0 <= j < |commands| ==> commands[j] == Object(lines[j]).value
    {
      var ok, c := JsonReader.ParseJsonCommand(lines[i]);
      if ok { commands := commands + [c]; } else { refused := refused + 1; }
    }
  }

  /** The device's side: whatever the chunks, the sent commands come out, all and in order. */
  method Serve(chunks: seq<string>, ghost sent: seq<seq<Pair>>) returns (commands: seq<Command>, refused: nat)
    requires forall i :: 0 <= i < |sent| ==> Sendable(sent[i])
    requires Whole(chunks) == Wire(sent)
    ensures refused == 0 && |commands| == |sent|
    ensures forall i :: 0 <= i < |sent| ==> commands[i] == Meaning(BLANK_COMMAND, sent[i])
  {
    hide Handled, Object, Meaning, Sendable, Whole, Wire;
    var buffer := new LineBuffer();
    FeedAll(buffer, chunks);
    CommandsSurvive(sent, chunks);
    commands, refused := ParseAll(buffer.handled);
  }
}
