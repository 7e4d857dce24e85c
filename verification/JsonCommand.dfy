/**
  ParseJsonCommand of src/json_parser.c: a flat JSON object becomes a command. The
  text still to be read is a string; its end is the terminating NUL.
 */
module JsonCommand {
  import opened Text
  import opened JsonText
  import opened Digits

  const MAX_ARGV: nat := 64
  const MAX_ARG_LEN: nat := 512

  /** The fields that have been set, by their names on the wire; the others are zero. */
  datatype Command = Command(text: map<string, string>, numbers: map<string, int>, flags: map<string, bool>, argv: seq<string>)

  const BLANK_COMMAND := Command(map[], map[], map[], [])

  /** The size of a text field's buffer; 0 for a name that is none. */
  function Size(key: string): (n: nat)
    ensures n > 0 ==> |key| < 64
  {
    if key == "cmd" || key == "id" then 32
    else if key == "path" || key == "dest" || key == "cwd" then 260
    else if key == "line" then 1024
    else if key == "data" then 65536
    else if key == "stdin_b64" then 8192
    else if key == "mem_token" then 40
    else if key == "mem_addr" || key == "mem_len" then 24
    else 0
  }

  predicate IsNumberField(key: string) {
    key == "timeout_ms" || key == "max_output" || key == "mem_cap_bytes" || key == "cpu_time_ms" || key == "cols" || key == "rows"
  }

  predicate IsFlagField(key: string) { key == "shell" || key == "unsafe" }

  /** copy_key: the first 63 characters of a name are compared. */
  function KeyBuf(key: string): string { if |key| >= 64 then key[..63] else key }

  function Clip(s: string, size: nat): string { if |s| < size || size == 0 then s else s[..size - 1] }

  function AssignText(c: Command, key: string, raw: string): Command {
    if Size(key) > 0 then c.(text := c.text[key := Clip(Unescape(raw), Size(key))]) else c
  }

  function AssignNumber(c: Command, key: string, n: int): Command {
    if IsNumberField(key) then c.(numbers := c.numbers[key := n]) else c
  }

  function AssignFlag(c: Command, key: string, b: bool): Command {
    if IsFlagField(key) then c.(flags := c.flags[key := b]) else c
  }

  function Push(argv: seq<string>, raw: string): seq<string> {
    if |argv| < MAX_ARGV then argv + [Clip(Unescape(raw), MAX_ARG_LEN)] else argv
  }

  // ------------------------------------------------------------------
  // The grammar
  // ------------------------------------------------------------------

  datatype Parsed<+T> = Bad | Good(value: T, rest: string)

  predicate IsBlank(c: char) { c == ' ' || c == '\t' || c == '\r' || c == '\n' }

  predicate IsNumeral(c: char) { '0' <= c <= '9' }

  function SkipBlanks(s: string): (r: string)
    ensures |r| <= |s| && (|r| > 0 ==> !IsBlank(r[0]))
  {
    if |s| > 0 && IsBlank(s[0]) then SkipBlanks(s[1..]) else s
  }

  /** Up to the next quote, escapes not looked at. */
  function KeyEnd(s: string): (n: nat)
    ensures n <= |s| && (n < |s| ==> s[n] == '"')
  {
    if |s| == 0 || s[0] == '"' then 0 else 1 + KeyEnd(s[1..])
  }

  const CEILING: int := 214748364

  /** Digits are taken up until the value reaches the ceiling; later ones are only passed over. */
  function Accumulate(s: string, acc: int): (r: Parsed<int>)
    ensures r.Good? && |r.rest| <= |s| && (|s| > 0 && IsNumeral(s[0]) ==> |r.rest| < |s|)
    decreases |s|
  {
    if |s| == 0 || !IsNumeral(s[0]) then Good(acc, s)
    else Accumulate(s[1..], if acc < CEILING then acc * 10 + (s[0] as int - '0' as int) else acc)
  }

  /** The digits and points of a number that is passed over. */
  function SkipNumber(s: string): (r: string)
    ensures |r| <= |s|
  {
    if |s| > 0 && (IsNumeral(s[0]) || s[0] == '.') then SkipNumber(s[1..]) else s
  }

  predicate Starts(s: string, word: string) { |word| <= |s| && s[..|word|] == word }

  /** true, false or null; how long the word is, 0 for none. */
  function Word(s: string): (n: nat)
    ensures n <= |s|
  {
    if Starts(s, "true") then 4 else if Starts(s, "false") then 5 else if Starts(s, "null") then 4 else 0
  }

  /** A string after its opening quote. */
  function TakeString(s: string): (r: Parsed<string>)
    ensures r.Good? ==> |r.rest| < |s|
  {
    var n := StringEnd(s);
    if n == |s| then Bad else Good(s[..n], s[n + 1..])
  }

  /** An integer, its sign first. */
  function TakeInteger(s: string): (r: Parsed<int>)
    requires |s| > 0 && (s[0] == '-' || IsNumeral(s[0]))
    ensures r.Good? ==> |r.rest| < |s|
  {
    var t := if s[0] == '-' then s[1..] else s;
    if |t| == 0 || !IsNumeral(t[0]) then Bad
    else
      var acc := Accumulate(t, 0);
      if |acc.rest| > 0 && acc.rest[0] == '.' then Bad
      else Good(if s[0] == '-' then -acc.value else acc.value, acc.rest)
  }

  /** The rest of an array, and argv with its strings. */
  function Items(s: string, isArgv: bool, argv: seq<string>): (r: Parsed<seq<string>>)
    ensures r.Good? ==> |r.rest| < |s|
    decreases |s|
  {
    var t := SkipBlanks(s);
    if |t| == 0 then Bad
    else if t[0] == ']' then Good(argv, t[1..])
    else if t[0] == ',' then Items(t[1..], isArgv, argv)
    else if t[0] == '"' then
      var str := TakeString(t[1..]);
      if str.Bad? then Bad else Items(str.rest, isArgv, if isArgv then Push(argv, str.value) else argv)
    else if isArgv then Bad
    else if t[0] == '-' || IsNumeral(t[0]) then
      var u := if t[0] == '-' then t[1..] else t;
      if |u| == 0 || !IsNumeral(u[0]) then Bad else Items(SkipNumber(u[1..]), isArgv, argv)
    else if Word(t) == 0 then Bad
    else Items(t[Word(t)..], isArgv, argv)
  }

  /** One value, assigned to its field. */
  function Value(s: string, key: string, c: Command): (r: Parsed<Command>)
    ensures r.Good? ==> |r.rest| < |s|
  {
    if |s| == 0 then Bad
    else if s[0] == '"' then
      var str := TakeString(s[1..]);
      if str.Bad? then Bad else Good(AssignText(c, key, str.value), str.rest)
    else if s[0] == '[' then
      var items := Items(s[1..], key == "argv", c.argv);
      if items.Bad? then Bad else Good(c.(argv := items.value), items.rest)
    else if s[0] == '-' || IsNumeral(s[0]) then
      var n := TakeInteger(s);
      if n.Bad? then Bad else Good(AssignNumber(c, key, n.value), n.rest)
    else if Word(s) == 0 then Bad
    else Good(if s[0] == 'n' then c else AssignFlag(c, key, s[0] == 't'), s[Word(s)..])
  }

  /** A name and the colon after it. */
  function Name(s: string): (r: Parsed<string>)
    ensures r.Good? ==> |r.rest| < |s|
  {
    if |s| == 0 || s[0] != '"' then Bad
    else
      var n := KeyEnd(s[1..]);
      if n == |s| - 1 then Bad
      else
        var t := SkipSpaces(s[n + 2..]);
        if |t| == 0 || t[0] != ':' then Bad else Good(s[1..n + 1], SkipSpaces(t[1..]))
  }

  function Pairs(s: string, c: Command): Parsed<Command>
    decreases |s|
  {
    var t := SkipBlanks(s);
    if |t| == 0 then Bad
    else if t[0] == '}' then Good(c, t[1..])
    else if t[0] == ',' then Pairs(t[1..], c)
    else
      var name := Name(t);
      if name.Bad? then Bad
      else
        var value := Value(name.rest, KeyBuf(name.value), c);
        if value.Bad? then Bad else Pairs(value.rest, value.value)
  }

  function Object(s: string): Parsed<Command> {
    var t := SkipBlanks(s);
    if |t| == 0 || t[0] != '{' then Bad else Pairs(t[1..], BLANK_COMMAND)
  }

  // ------------------------------------------------------------------
  // Printing
  // ------------------------------------------------------------------

  datatype Scalar = Str(s: string) | Num(n: int) | Flag(b: bool) | Null

  datatype Field = One(v: Scalar) | Many(items: seq<Scalar>)

  datatype Pair = Pair(key: string, field: Field)

  function PrintNumber(n: int): string { if n < 0 then "-" + Decimal(-n) else Decimal(n) }

  function PrintScalar(v: Scalar): string {
    match v
    case Str(s) => "\"" + EscapeText(s) + "\""
    case Num(n) => PrintNumber(n)
    case Flag(b) => if b then "true" else "false"
    case Null => "null"
  }

  function PrintItems(vs: seq<Scalar>): string {
    if |vs| == 0 then ""
    else PrintScalar(vs[0]) + (if |vs| == 1 then "" else "," + PrintItems(vs[1..]))
  }

  function PrintField(f: Field): string {
    match f
    case One(v) => PrintScalar(v)
    case Many(items) => "[" + PrintItems(items) + "]"
  }

  function PrintPair(p: Pair): string { "\"" + p.key + "\":" + PrintField(p.field) }

  function PrintPairs(ps: seq<Pair>): string {
    if |ps| == 0 then ""
    else PrintPair(ps[0]) + (if |ps| == 1 then "" else "," + PrintPairs(ps[1..]))
  }

  function PrintObject(ps: seq<Pair>): string { "{" + PrintPairs(ps) + "}" }

  // ------------------------------------------------------------------
  // What a printed command means, and what the device can hold
  // ------------------------------------------------------------------

  function Strings(vs: seq<Scalar>): seq<string> {
    if |vs| == 0 then [] else (if vs[0].Str? then [vs[0].s] else []) + Strings(vs[1..])
  }

  function Store(c: Command, p: Pair): Command {
    match p.field
    case One(Str(s)) => if Size(p.key) > 0 then c.(text := c.text[p.key := s]) else c
    case One(Num(n)) => AssignNumber(c, p.key, n)
    case One(Flag(b)) => AssignFlag(c, p.key, b)
    case One(Null) => c
    case Many(items) => if p.key == "argv" then c.(argv := c.argv + Strings(items)) else c
  }

  function Meaning(c: Command, ps: seq<Pair>): Command
    decreases |ps|
  {
    if |ps| == 0 then c else Meaning(Store(c, ps[0]), ps[1..])
  }

  predicate FitsArgv(vs: seq<Scalar>) {
    forall i :: 0 <= i < |vs| ==> vs[i].Str? && Clean(vs[i].s) && |vs[i].s| < 512
  }

  predicate Fits(c: Command, p: Pair) {
    && '"' !in p.key
    && match p.field
       case One(Str(s)) => Size(p.key) > 0 ==> Clean(s) && |s| < Size(p.key)
       case One(Num(n)) => IsNumberField(p.key) ==> -2147483639 <= n <= 2147483639
       case Many(items) => p.key == "argv" ==> FitsArgv(items) && |c.argv| + |items| <= 64
       case _ => true
  }

  predicate AllFit(c: Command, ps: seq<Pair>)
    decreases |ps|
  {
    |ps| == 0 || (Fits(c, ps[0]) && AllFit(Store(c, ps[0]), ps[1..]))
  }

  // ------------------------------------------------------------------
  // Printed pieces are read as what they were
  // ------------------------------------------------------------------

  lemma NotBlank(s: string)
    requires |s| > 0 && !IsBlank(s[0])
    ensures SkipBlanks(s) == s
  {}

  lemma StringIsTaken(s: string, rest: string)
    ensures TakeString(EscapeText(s) + "\"" + rest) == Good(EscapeText(s), rest)
  {
    EscapedEnds(s, rest);
    var t, n := EscapeText(s) + "\"" + rest, |EscapeText(s)|;
    hide EscapeText, StringEnd;
    assert t[..n] == EscapeText(s) && t[n + 1..] == rest;
  }

  /** Where a value may end. */
  predicate EndsValue(rest: string) { |rest| > 0 && (rest[0] == ',' || rest[0] == ']' || rest[0] == '}') }

  function Accumulated(n: nat): nat {
    if n < 10 then n
    else
      var m := Accumulated(n / 10);
      if m < CEILING then m * 10 + n % 10 else m
  }

  lemma {:induction false} AccumulateJoins(a: string, b: string, acc: int)
    requires forall i :: 0 <= i < |a| ==> IsNumeral(a[i])
    ensures var x := Accumulate(a, acc); x.rest == "" && Accumulate(a + b, acc) == Accumulate(b, x.value)
    decreases |a|
  {
    if |a| == 0 {
      assert a + b == b && a == "";
    } else {
      assert (a + b)[1..] == a[1..] + b;
      AccumulateJoins(a[1..], b, if acc < CEILING then acc * 10 + (a[0] as int - '0' as int) else acc);
    }
  }

  lemma DecimalIsNumeral(n: nat)
    ensures forall i :: 0 <= i < |Decimal(n)| ==> IsNumeral(Decimal(n)[i])
  {
    var s := Decimal(n);
    hide Decimal;
    forall i | 0 <= i < |s| ensures IsNumeral(s[i]) { assert IsDigit(s[i], 10); }
  }

  lemma OneDigit(d: nat, acc: int, rest: string)
    requires d < 10 && EndsValue(rest)
    ensures Accumulate([DecimalDigit(d)] + rest, acc) == Good(if acc < CEILING then acc * 10 + d else acc, rest)
    ensures Accumulate([DecimalDigit(d)], acc) == Good(if acc < CEILING then acc * 10 + d else acc, "")
  {
    assert ([DecimalDigit(d)] + rest)[1..] == rest;
    assert [DecimalDigit(d)][1..] == "";
  }

  lemma {:induction false} DecimalIsAccumulated(n: nat)
    ensures Accumulate(Decimal(n), 0) == Good(Accumulated(n), "")
  {
    hide Accumulate, DecimalDigit;
    if n < 10 {
      OneDigit(n, 0, ",");
    } else {
      DecimalIsAccumulated(n / 10);
      DecimalIsNumeral(n / 10);
      AccumulateJoins(Decimal(n / 10), [DecimalDigit(n % 10)], 0);
      OneDigit(n % 10, Accumulated(n / 10), ",");
    }
  }

  /** Accumulating gives the value exactly up to 2147483639, and something smaller above. */
  lemma {:induction false} AccumulatedIsExact(n: nat)
    ensures Accumulated(n) == n <==> n <= 2147483639
    ensures n > 2147483639 ==> CEILING <= Accumulated(n) < n
  {
    if n >= 10 { AccumulatedIsExact(n / 10); }
  }

  /** The integer that is read for n. */
  function ReadBack(n: int): int { if n < 0 then -(Accumulated(-n) as int) else Accumulated(n) }

  lemma IntegerIsTaken(n: int, rest: string)
    requires EndsValue(rest)
    ensures var t := PrintNumber(n) + rest;
            |t| > 0 && (t[0] == '-' || IsNumeral(t[0])) && TakeInteger(t) == Good(ReadBack(n), rest)
    ensures ReadBack(n) == n <==> -2147483639 <= n <= 2147483639
  {
    hide *;
    var m := if n < 0 then -n else n;
    ReadBackIsExact(n, m);
    UnsignedIsTaken(m, rest);
    SignedIsTaken(n, m, Decimal(m) + rest, rest);
  }

  lemma ReadBackIsExact(n: int, m: nat)
    requires m == if n < 0 then -n else n
    ensures ReadBack(n) == n <==> -2147483639 <= n <= 2147483639
    ensures ReadBack(n) == if n < 0 then -(Accumulated(m) as int) else Accumulated(m)
  {
    AccumulatedIsExact(m);
  }

  lemma UnsignedIsTaken(m: nat, rest: string)
    requires EndsValue(rest)
    ensures Accumulate(Decimal(m) + rest, 0) == Good(Accumulated(m), rest) && IsNumeral((Decimal(m) + rest)[0])
  {
    DecimalIsAccumulated(m);
    DecimalIsNumeral(m);
    AccumulateJoins(Decimal(m), rest, 0);
    assert Accumulate(rest, Accumulated(m)) == Good(Accumulated(m), rest);
    hide Accumulated, Decimal;
  }

  lemma SignedIsTaken(n: int, m: nat, d: string, rest: string)
    requires m == (if n < 0 then -n else n) && d == Decimal(m) + rest && EndsValue(rest)
    requires Accumulate(d, 0) == Good(Accumulated(m), rest) && IsNumeral(d[0])
    ensures var t := PrintNumber(n) + rest;
            && |t| > 0 && (t[0] == '-' || IsNumeral(t[0]))
            && TakeInteger(t) == Good(if n < 0 then -(Accumulated(m) as int) else Accumulated(m), rest)
  {
    hide Accumulate, Accumulated, Decimal;
    if n < 0 {
      assert PrintNumber(n) + rest == "-" + d && ("-" + d)[1..] == d;
    }
  }

  lemma {:induction false} NumberIsSkipped(a: string, rest: string)
    requires (forall i :: 0 <= i < |a| ==> IsNumeral(a[i])) && EndsValue(rest)
    ensures SkipNumber(a + rest) == rest
  {
    if |a| == 0 {
      assert a + rest == rest;
    } else {
      assert (a + rest)[1..] == a[1..] + rest;
      NumberIsSkipped(a[1..], rest);
    }
  }

  lemma WordIsTaken(word: string, rest: string)
    requires word == "true" || word == "false" || word == "null"
    ensures Word(word + rest) == |word| && (word + rest)[|word|..] == rest && (word + rest)[0] == word[0]
  {
    var t := word + rest;
    assert t[..|word|] == word;
    StartsAlike(t, "true");
    StartsAlike(t, "false");
  }

  lemma StartsAlike(s: string, word: string)
    requires |word| > 0
    ensures Starts(s, word) ==> s[0] == word[0]
  {
    if Starts(s, word) { assert s[..|word|][0] == s[0]; }
  }

  /** An element of an array is read over or, in argv, pushed. */
  lemma ItemIsTaken(v: Scalar, isArgv: bool, argv: seq<string>, rest: string)
    requires EndsValue(rest) && (isArgv ==> v.Str?)
    ensures Items(PrintScalar(v) + rest, isArgv, argv)
            == Items(rest, isArgv, if isArgv then Push(argv, EscapeText(v.s)) else argv)
  {
    hide EscapeText, TakeString, Push, SkipNumber, Word, PrintNumber, SkipBlanks;
    var t := PrintScalar(v) + rest;
    match v
    case Str(s) =>
      StringIsTaken(s, rest);
      assert t == "\"" + (EscapeText(s) + "\"" + rest);
      NotBlank(t);
    case Num(n) =>
      NumberSkips(n, rest);
      NotBlank(t);
    case Flag(b) =>
      WordIsTaken(PrintScalar(v), rest);
      NotBlank(t);
    case Null =>
      WordIsTaken(PrintScalar(v), rest);
      NotBlank(t);
  }

  lemma NumberSkips(n: int, rest: string)
    requires EndsValue(rest)
    ensures var t := PrintNumber(n) + rest;
            && |t| > 0 && (t[0] == '-' || IsNumeral(t[0]))
            && var u := if t[0] == '-' then t[1..] else t;
            |u| > 0 && IsNumeral(u[0]) && SkipNumber(u[1..]) == rest
  {
    hide Decimal, SkipNumber;
    var m := if n < 0 then -n else n;
    DecimalIsNumeral(m);
    DigitsSkip(Decimal(m), rest);
    if n < 0 {
      assert PrintNumber(n) + rest == "-" + (Decimal(m) + rest);
      assert ("-" + (Decimal(m) + rest))[1..] == Decimal(m) + rest;
    }
  }

  lemma DigitsSkip(d: string, rest: string)
    requires |d| > 0 && (forall i :: 0 <= i < |d| ==> IsNumeral(d[i])) && EndsValue(rest)
    ensures IsNumeral((d + rest)[0]) && SkipNumber((d + rest)[1..]) == rest
  {
    assert (d + rest)[1..] == d[1..] + rest;
    NumberIsSkipped(d[1..], rest);
  }

  lemma ItemsEnd(isArgv: bool, argv: seq<string>, rest: string)
    ensures Items("]" + rest, isArgv, argv) == Good(argv, rest)
    ensures Items("," + rest, isArgv, argv) == Items(rest, isArgv, argv)
  {
    NotBlank("]" + rest);
    NotBlank("," + rest);
    assert ("]" + rest)[1..] == rest && ("," + rest)[1..] == rest;
    hide SkipBlanks;
  }

  lemma PushIsExact(argv: seq<string>, s: string)
    requires Clean(s) && |s| < MAX_ARG_LEN && |argv| < MAX_ARGV
    ensures Push(argv, EscapeText(s)) == argv + [s]
  {
    UnescapedLength(s);
    hide EscapeText, Unescape;
  }

  /** A printed array ends where it was closed; argv has taken its strings. */
  lemma {:induction false} ItemsAreTaken(vs: seq<Scalar>, isArgv: bool, argv: seq<string>, rest: string)
    requires isArgv ==> FitsArgv(vs) && |argv| + |vs| <= MAX_ARGV
    ensures Items(PrintItems(vs) + "]" + rest, isArgv, argv) == Good(if isArgv then argv + Strings(vs) else argv, rest)
    decreases |vs|
  {
    hide Items, PrintScalar, Push, EscapeText, Clean;
    ItemsEnd(isArgv, argv, rest);
    if |vs| == 0 {
      assert PrintItems(vs) + "]" + rest == "]" + rest && argv + [] == argv;
    } else {
      var next := if isArgv then Push(argv, EscapeText(vs[0].s)) else argv;
      if isArgv {
        PushIsExact(argv, vs[0].s);
        assert Strings(vs) == [vs[0].s] + Strings(vs[1..]);
        Assoc(argv, [vs[0].s], Strings(vs[1..]));
      }
      var more := PrintItems(vs[1..]) + "]" + rest;
      ItemsAreTaken(vs[1..], isArgv, next, rest);
      ItemsEnd(isArgv, next, rest);
      ItemsEnd(isArgv, next, more);
      var tail := if |vs| == 1 then "]" + rest else "," + more;
      ItemIsTaken(vs[0], isArgv, argv, tail);
      assert PrintItems(vs) + "]" + rest == PrintScalar(vs[0]) + tail;
      if |vs| == 1 { assert PrintItems(vs[1..]) == "" && more == "]" + rest; }
    }
  }

  lemma {:induction false} KeyEnds(key: string, rest: string)
    requires '"' !in key
    ensures KeyEnd(key + "\"" + rest) == |key|
  {
    if |key| == 0 {
      assert key + "\"" + rest == "\"" + rest;
    } else {
      assert (key + "\"" + rest)[1..] == key[1..] + "\"" + rest;
      KeyEnds(key[1..], rest);
    }
  }

  lemma NameIsTaken(key: string, rest: string)
    requires '"' !in key && |rest| > 0 && rest[0] != ' ' && rest[0] != '\t'
    ensures Name("\"" + key + "\":" + rest) == Good(key, rest)
  {
    var s, t := "\"" + key + "\":" + rest, key + "\"" + (":" + rest);
    assert s[1..] == t;
    KeyEnds(key, ":" + rest);
    hide KeyEnd;
    assert s[|key| + 2..] == ":" + rest && s[1..|key| + 1] == key;
    assert (":" + rest)[1..] == rest;
  }

  /** A name cut at 63 characters is never mistaken for one of the device's own. */
  /** The text fields, and how long a text comes through whole in each. */
  lemma LongestTexts(s: string)
    ensures Clip(s, Size("cmd")) == s <==> |s| <= 31
    ensures Clip(s, Size("id")) == s <==> |s| <= 31
    ensures Clip(s, Size("path")) == s <==> |s| <= 259
    ensures Clip(s, Size("dest")) == s <==> |s| <= 259
    ensures Clip(s, Size("cwd")) == s <==> |s| <= 259
    ensures Clip(s, Size("line")) == s <==> |s| <= 1023
    ensures Clip(s, Size("data")) == s <==> |s| <= 65535
    ensures Clip(s, Size("stdin_b64")) == s <==> |s| <= 8191
    ensures Clip(s, Size("mem_token")) == s <==> |s| <= 39
    ensures Clip(s, Size("mem_addr")) == s <==> |s| <= 23
    ensures Clip(s, Size("mem_len")) == s <==> |s| <= 23
  {
    Sizes();
    hide Size;
  }

  lemma Sizes()
    ensures Size("cmd") == Size("id") == 32 && Size("path") == Size("dest") == Size("cwd") == 260
    ensures Size("line") == 1024 && Size("data") == 65536 && Size("stdin_b64") == 8192
    ensures Size("mem_token") == 40 && Size("mem_addr") == Size("mem_len") == 24
  {
    assert |"cmd"| == 3 && |"id"| == 2 && |"path"| == 4 && |"dest"| == 4 && |"cwd"| == 3 && |"line"| == 4 && |"data"| == 4;
    assert |"stdin_b64"| == 9 && |"mem_token"| == 9 && |"mem_addr"| == 8 && |"mem_len"| == 7;
    assert "path"[0] == 'p' && "dest"[0] == 'd' && "dest"[1] == 'e' && "line"[0] == 'l' && "data"[0] == 'd' && "data"[1] == 'a';
    assert "stdin_b64"[0] == 's' && "mem_token"[0] == 'm' && "cmd"[1] == 'm' && "cwd"[1] == 'w';
  }

  lemma KeyBufIs(key: string)
    ensures Size(KeyBuf(key)) == Size(key) && IsNumberField(KeyBuf(key)) == IsNumberField(key)
    ensures IsFlagField(KeyBuf(key)) == IsFlagField(key) && (KeyBuf(key) == "argv" <==> key == "argv")
    ensures Size(key) > 0 || IsNumberField(key) || IsFlagField(key) || key == "argv" ==> KeyBuf(key) == key
  {}

  lemma ValueIsTaken(p: Pair, c: Command, rest: string)
    requires EndsValue(rest) && Fits(c, p)
    ensures Value(PrintField(p.field) + rest, KeyBuf(p.key), c) == Good(Store(c, p), rest)
  {
    match p.field
    case One(Str(s)) => StringFieldIsTaken(p.key, s, c, rest);
    case One(Num(n)) => NumberFieldIsTaken(p.key, n, c, rest);
    case One(Flag(b)) => WordFieldIsTaken(p.key, Flag(b), c, rest);
    case One(Null) => WordFieldIsTaken(p.key, Null, c, rest);
    case Many(items) => ArrayFieldIsTaken(p.key, items, c, rest);
    hide *;
  }

  lemma StringFieldIsTaken(key: string, s: string, c: Command, rest: string)
    requires Size(key) > 0 ==> Clean(s) && |s| < Size(key)
    ensures Value(PrintScalar(Str(s)) + rest, KeyBuf(key), c) == Good(Store(c, Pair(key, One(Str(s)))), rest)
  {
    StringIsTaken(s, rest);
    KeyBufIs(key);
    UnescapedLength(s);
    hide EscapeText, Unescape, Clean, Value, TakeString, KeyBuf, Size;
    var x := EscapeText(s) + "\"" + rest;
    assert PrintScalar(Str(s)) + rest == "\"" + x;
    ValueOfString(x, KeyBuf(key), c);
  }

  lemma NumberFieldIsTaken(key: string, n: int, c: Command, rest: string)
    requires EndsValue(rest) && (IsNumberField(key) ==> -2147483639 <= n <= 2147483639)
    ensures Value(PrintNumber(n) + rest, KeyBuf(key), c) == Good(AssignNumber(c, key, n), rest)
  {
    IntegerIsTaken(n, rest);
    KeyBufIs(key);
    hide Value, TakeInteger, KeyBuf, IsNumberField, ReadBack, PrintNumber;
    ValueOfInteger(PrintNumber(n) + rest, KeyBuf(key), c);
  }

  lemma WordFieldIsTaken(key: string, v: Scalar, c: Command, rest: string)
    requires v.Flag? || v.Null?
    ensures Value(PrintScalar(v) + rest, KeyBuf(key), c) == Good(if v.Flag? then AssignFlag(c, key, v.b) else c, rest)
  {
    WordIsTaken(PrintScalar(v), rest);
    KeyBufIs(key);
    hide Word, KeyBuf, IsFlagField;
  }

  lemma ArrayFieldIsTaken(key: string, items: seq<Scalar>, c: Command, rest: string)
    requires key == "argv" ==> FitsArgv(items) && |c.argv| + |items| <= MAX_ARGV
    ensures Value("[" + PrintItems(items) + "]" + rest, KeyBuf(key), c) == Good(Store(c, Pair(key, Many(items))), rest)
  {
    hide *;
    KeyBufIs(key);
    var isArgv := key == "argv";
    ItemsAreTaken(items, isArgv, c.argv, rest);
    var x := PrintItems(items) + "]" + rest;
    Assoc("[", PrintItems(items), "]");
    Assoc("[", PrintItems(items) + "]", rest);
    ValueOfArray(x, KeyBuf(key), c);
    StoreArray(key, items, c);
  }

  lemma StoreArray(key: string, items: seq<Scalar>, c: Command)
    ensures Store(c, Pair(key, Many(items))) == c.(argv := if key == "argv" then c.argv + Strings(items) else c.argv)
  {
    hide Strings;
  }

  lemma ValueOfString(x: string, k: string, c: Command)
    requires TakeString(x).Good?
    ensures Value("\"" + x, k, c) == Good(AssignText(c, k, TakeString(x).value), TakeString(x).rest)
  {
    hide TakeString, AssignText;
    assert ("\"" + x)[1..] == x;
  }

  lemma ValueOfInteger(t: string, k: string, c: Command)
    requires |t| > 0 && (t[0] == '-' || IsNumeral(t[0])) && TakeInteger(t).Good?
    ensures Value(t, k, c) == Good(AssignNumber(c, k, TakeInteger(t).value), TakeInteger(t).rest)
  {
    hide TakeInteger, AssignNumber;
  }

  lemma ValueOfArray(x: string, k: string, c: Command)
    requires Items(x, k == "argv", c.argv).Good?
    ensures var items := Items(x, k == "argv", c.argv);
            Value("[" + x, k, c) == Good(c.(argv := items.value), items.rest)
  {
    hide Items;
    assert ("[" + x)[1..] == x;
  }

  lemma PrintedIsNoSpace(f: Field, rest: string)
    ensures var t := PrintField(f) + rest; |t| > 0 && t[0] != ' ' && t[0] != '\t'
  {
    match f
    case One(Num(n)) => DecimalIsNumeral(if n < 0 then -n else n);
    case _ =>
  }

  lemma PairsEnd(c: Command, rest: string)
    ensures Pairs("}" + rest, c) == Good(c, rest)
    ensures Pairs("," + rest, c) == Pairs(rest, c)
  {
    NotBlank("}" + rest);
    NotBlank("," + rest);
    assert ("}" + rest)[1..] == rest && ("," + rest)[1..] == rest;
    hide SkipBlanks;
  }

  lemma PairIsTaken(p: Pair, c: Command, rest: string)
    requires EndsValue(rest) && Fits(c, p)
    ensures Pairs(PrintPair(p) + rest, c) == Pairs(rest, Store(c, p))
  {
    hide *;
    var v := PrintField(p.field) + rest;
    PrintedIsNoSpace(p.field, rest);
    FitsKey(p, c);
    NameIsTaken(p.key, v);
    ValueIsTaken(p, c, rest);
    PairText(p, rest);
    PairsOfName("\"" + p.key + "\":" + v, p.key, c);
  }

  lemma FitsKey(p: Pair, c: Command)
    requires Fits(c, p)
    ensures '"' !in p.key
  {}

  lemma PairText(p: Pair, rest: string)
    ensures PrintPair(p) + rest == "\"" + p.key + "\":" + (PrintField(p.field) + rest)
  {
    hide PrintField;
  }

  lemma PairsOfName(t: string, key: string, c: Command)
    requires |t| > 0 && t[0] == '"' && Name(t).Good? && Name(t).value == key
    requires Value(Name(t).rest, KeyBuf(key), c).Good?
    ensures var v := Value(Name(t).rest, KeyBuf(key), c); Pairs(t, c) == Pairs(v.rest, v.value)
  {
    hide Name, Value, KeyBuf, SkipBlanks;
    NotBlank(t);
  }

  /** A printed run of pairs is read as what it means, in order, whatever its unknown fields hold. */
  lemma {:induction false} PairsAreTaken(ps: seq<Pair>, c: Command, rest: string)
    requires AllFit(c, ps)
    ensures Pairs(PrintPairs(ps) + "}" + rest, c) == Good(Meaning(c, ps), rest)
    decreases |ps|
  {
    hide Pairs, PrintPair, Store, Fits;
    if |ps| == 0 {
      PairsEnd(c, rest);
      assert PrintPairs(ps) + "}" + rest == "}" + rest;
    } else {
      var c' := Store(c, ps[0]);
      var more := PrintPairs(ps[1..]) + "}" + rest;
      PairsAreTaken(ps[1..], c', rest);
      PairsEnd(c', rest);
      PairsEnd(c', more);
      var tail := if |ps| == 1 then "}" + rest else "," + more;
      PairIsTaken(ps[0], c, tail);
      assert PrintPairs(ps) + "}" + rest == PrintPair(ps[0]) + tail;
      if |ps| == 1 { assert PrintPairs(ps[1..]) == "" && more == "}" + rest; }
    }
  }

  /** Parsing a printed command gives every field its value. */
  lemma ObjectIsTaken(ps: seq<Pair>, rest: string)
    requires AllFit(BLANK_COMMAND, ps)
    ensures Object(PrintObject(ps) + rest) == Good(Meaning(BLANK_COMMAND, ps), rest)
  {
    hide *;
    PairsAreTaken(ps, BLANK_COMMAND, rest);
    ObjectText(ps, rest);
    ObjectOfPairs(PrintPairs(ps) + "}" + rest);
  }

  lemma ObjectText(ps: seq<Pair>, rest: string)
    ensures PrintObject(ps) + rest == "{" + (PrintPairs(ps) + "}" + rest)
  {
    hide PrintPairs;
  }

  lemma ObjectOfPairs(x: string)
    ensures Object("{" + x) == Pairs(x, BLANK_COMMAND)
  {
    hide Pairs, SkipBlanks;
    NotBlank("{" + x);
    assert ("{" + x)[1..] == x;
  }

  // ------------------------------------------------------------------
  // Texts that are refused
  // ------------------------------------------------------------------

  /** A number with a point is no integer, however its digits read. */
  lemma FractionIsRefused(n: int, rest: string)
    ensures TakeInteger(PrintNumber(n) + ("." + rest)) == Bad
  {
    hide *;
    var m, x := if n < 0 then -n else n, "." + rest;
    DecimalIsAccumulated(m);
    DecimalIsNumeral(m);
    AccumulateJoins(Decimal(m), x, 0);
    PointEnds(x, Accumulated(m));
    PointIsRefused(n, m, Decimal(m) + x, Accumulated(m), x);
  }

  lemma PointEnds(x: string, acc: int)
    requires |x| > 0 && x[0] == '.'
    ensures Accumulate(x, acc) == Good(acc, x)
  {}

  lemma PointIsRefused(n: int, m: nat, d: string, acc: int, x: string)
    requires m == (if n < 0 then -n else n) && d == Decimal(m) + x && |x| > 0 && x[0] == '.'
    requires Accumulate(d, 0) == Good(acc, x) && forall i :: 0 <= i < |Decimal(m)| ==> IsNumeral(Decimal(m)[i])
    ensures TakeInteger(PrintNumber(n) + x) == Bad
  {
    hide Accumulate, Decimal;
    assert IsNumeral(d[0]);
    if n < 0 { assert PrintNumber(n) + x == "-" + d && ("-" + d)[1..] == d; }
  }

  /** A string that does not end is none. */
  lemma {:induction false} OpenStringIsRefused(s: string)
    ensures StringEnd(EscapeText(s)) == |EscapeText(s)| && TakeString(EscapeText(s)) == Bad
  {
    hide EscapeChar, StringEnd;
    if |s| == 0 {
      assert EscapeText(s) == "";
      NothingEnds();
    } else {
      OpenStringIsRefused(s[1..]);
      EndPassesPiece(s[0], EscapeText(s[1..]));
    }
  }

  lemma NothingEnds()
    ensures StringEnd("") == 0
  {}

  /** The format is flat: no field holds an object, and no array an object or an array; and argv holds strings alone. */
  lemma NestingIsRefused(x: string, key: string, c: Command, isArgv: bool, argv: seq<string>)
    ensures Value("{" + x, key, c) == Bad
    ensures Items("{" + x, isArgv, argv) == Bad && Items("[" + x, isArgv, argv) == Bad
  {
    StartsAlike("{" + x, "true");
    StartsAlike("{" + x, "false");
    StartsAlike("{" + x, "null");
    StartsAlike("[" + x, "true");
    StartsAlike("[" + x, "false");
    StartsAlike("[" + x, "null");
    NotBlank("{" + x);
    NotBlank("[" + x);
  }

  lemma ArgvHoldsStrings(v: Scalar, x: string, argv: seq<string>)
    requires !v.Str?
    ensures Items(PrintScalar(v) + x, true, argv) == Bad
  {
    match v
    case Num(n) =>
      DecimalIsNumeral(if n < 0 then -n else n);
      hide Decimal;
      NotBlank(PrintScalar(v) + x);
    case Flag(b) => NotBlank(PrintScalar(v) + x);
    case Null => NotBlank(PrintScalar(v) + x);
  }

  /** And a command with a refused value is refused. */
  lemma ValueIsRefused(key: string, x: string, c: Command)
    requires '"' !in key && |x| > 0 && x[0] != ' ' && x[0] != '\t' && Value(x, KeyBuf(key), c).Bad?
    ensures Pairs("\"" + key + "\":" + x, c) == Bad
  {
    NameIsTaken(key, x);
    NotBlank("\"" + key + "\":" + x);
    hide Name, Value, KeyBuf, SkipBlanks;
  }

  /** Arguments beyond the sixty-fourth are dropped, and of each the first 511 characters are kept. */
  lemma ArgvLimits(argv: seq<string>, s: string)
    requires Clean(s)
    ensures Push(argv, EscapeText(s)) == if |argv| < 64 then argv + [if |s| <= 511 then s else s[..511]] else argv
  {
    UnescapeOfEscape(s);
    hide EscapeText, Unescape;
  }

  /** A printed number is kept under one of six names, a printed flag under one of two, and under no other. */
  lemma NumbersAndFlagsAreKept(key: string, n: int, b: bool)
    requires '"' !in key && -2147483639 <= n <= 2147483639
    ensures Object(PrintObject([Pair(key, One(Num(n)))]) + "") ==
              Good(if key in {"timeout_ms", "max_output", "mem_cap_bytes", "cpu_time_ms", "cols", "rows"}
                   then Command(map[], map[key := n], map[], []) else BLANK_COMMAND, "")
    ensures Object(PrintObject([Pair(key, One(Flag(b)))]) + "") ==
              Good(if key in {"shell", "unsafe"} then Command(map[], map[], map[key := b], []) else BLANK_COMMAND, "")
  {
    MeaningOfOne(Pair(key, One(Num(n))));
    MeaningOfOne(Pair(key, One(Flag(b))));
    ObjectIsTaken([Pair(key, One(Num(n)))], "");
    ObjectIsTaken([Pair(key, One(Flag(b)))], "");
    hide Object, PrintObject, Meaning;
  }

  lemma MeaningOfOne(p: Pair)
    ensures Meaning(BLANK_COMMAND, [p]) == Store(BLANK_COMMAND, p)
    ensures Fits(BLANK_COMMAND, p) ==> AllFit(BLANK_COMMAND, [p])
  {
    assert [p][1..] == [];
    hide Store, Fits;
  }
}
