/**
  The loops of ParseJsonCommand in src/json_parser.c: a cursor that walks a
  NUL-terminated text, proved against the grammar of JsonCommand.
 */
module JsonReader {
  import opened Text
  import opened JsonText
  import opened JsonCommand

  lemma At(s: string, p: nat)
    requires p < |s|
    ensures s[p..][0] == s[p] && s[p..][1..] == s[p + 1..] && |s[p..]| == |s| - p
  {}

  method SkipBlanksFrom(json: string, p: nat) returns (q: nat)
    requires p <= |json|
    ensures p <= q <= |json| && json[q..] == SkipBlanks(json[p..])
  {
    q := p;
    while q < |json| && IsBlank(json[q])
      invariant p <= q <= |json| && SkipBlanks(json[p..]) == SkipBlanks(json[q..])
    {
      At(json, q);
      q := q + 1;
    }
    if q < |json| { At(json, q); }
  }

  method SkipSpacesFrom(json: string, p: nat) returns (q: nat)
    requires p <= |json|
    ensures p <= q <= |json| && json[q..] == SkipSpaces(json[p..])
  {
    q := p;
    while q < |json| && (json[q] == ' ' || json[q] == '\t')
      invariant p <= q <= |json| && SkipSpaces(json[p..]) == SkipSpaces(json[q..])
    {
      At(json, q);
      q := q + 1;
    }
    if q < |json| { At(json, q); }
  }

  /** A key after its opening quote and the colon that follows it. */
  method ReadName(json: string, p: nat) returns (ok: bool, key: string, q: nat)
    requires p < |json| && json[p] == '"'
    ensures ok <==> Name(json[p..]).Good?
    ensures ok ==> p < q <= |json| && Name(json[p..]) == Good(key, json[q..])
  {
    hide SkipSpaces;
    key, q := "", p + 1;
    At(json, p);
    while q < |json| && json[q] != '"'
      invariant p < q <= |json| && KeyEnd(json[p + 1..]) == q - (p + 1) + KeyEnd(json[q..])
    {
      At(json, q);
      q := q + 1;
    }
    hide KeyEnd;
    EndOfKey(json, q);
    if q == |json| { return false, key, q; }
    key := json[p + 1..q];
    NameText(json, p, q);
    q := SkipSpacesFrom(json, q + 1);
    if q == |json| || json[q] != ':' { return false, key, q; }
    At(json, q);
    q := SkipSpacesFrom(json, q + 1);
    ok := true;
  }

  lemma EndOfKey(json: string, q: nat)
    requires q <= |json| && (q < |json| ==> json[q] == '"')
    ensures KeyEnd(json[q..]) == 0
  {}

  lemma NameText(json: string, p: nat, q: nat)
    requires p < q < |json|
    ensures json[p..][1..q - p] == json[p + 1..q] && json[p..][q - p + 1..] == json[q + 1..]
  {}

  /** A string after its opening quote. */
  method ReadString(json: string, p: nat) returns (ok: bool, raw: string, q: nat)
    requires p <= |json|
    ensures ok <==> TakeString(json[p..]).Good?
    ensures ok ==> p < q <= |json| && TakeString(json[p..]) == Good(raw, json[q..])
  {
    hide StringEnd;
    raw, q := "", p;
    while q < |json|
      invariant p <= q <= |json| && StringEnd(json[p..]) == q - p + StringEnd(json[q..])
    {
      StringEndAt(json, q);
      if json[q] == '\\' && q + 1 < |json| {
        q := q + 2;
      } else if json[q] == '"' {
        break;
      } else {
        q := q + 1;
      }
    }
    EndOfString(json, q);
    if q == |json| { return false, raw, q; }
    raw := json[p..q];
    assert json[p..][..q - p] == raw && json[p..][q - p + 1..] == json[q + 1..];
    ok, q := true, q + 1;
  }

  lemma StringEndAt(json: string, q: nat)
    requires q < |json|
    ensures StringEnd(json[q..]) ==
              if json[q] == '"' then 0
              else if json[q] == '\\' && q + 1 < |json| then 2 + StringEnd(json[q + 2..])
              else 1 + StringEnd(json[q + 1..])
  {
    At(json, q);
    if q + 1 < |json| { DropDrop(json, q, 2); }
  }

  lemma EndOfString(json: string, q: nat)
    requires q <= |json| && (q < |json| ==> json[q] == '"')
    ensures StringEnd(json[q..]) == 0
  {}

  method ReadInteger(json: string, p: nat) returns (ok: bool, n: int, q: nat)
    requires p < |json| && (json[p] == '-' || IsNumeral(json[p]))
    ensures ok <==> TakeInteger(json[p..]).Good?
    ensures ok ==> p < q <= |json| && TakeInteger(json[p..]) == Good(n, json[q..])
  {
    At(json, p);
    var sign: int;
    sign, q, n := 1, p, 0;
    if json[q] == '-' { sign, q := -1, q + 1; }
    if q == |json| || !IsNumeral(json[q]) { return false, n, q; }
    ghost var from := q;
    while q < |json| && IsNumeral(json[q])
      invariant from <= q <= |json| && Accumulate(json[from..], 0) == Accumulate(json[q..], n)
    {
      At(json, q);
      if n < CEILING { n := n * 10 + (json[q] as int - '0' as int); }
      q := q + 1;
    }
    assert Accumulate(json[q..], n) == Good(n, json[q..]);
    if q < |json| && json[q] == '.' { return false, n, q; }
    ok, n := true, sign * n;
  }

  method AssignField(c: Command, key: string, raw: string) returns (r: Command)
    ensures r == AssignText(c, key, raw)
  {
    var size := Size(key);
    if size == 0 { return c; }
    var value := ReadInto(raw, size);
    r := c.(text := c.text[key := value]);
  }

  /** json_unescape into a buffer of the field's own size. */
  method ReadInto(raw: string, size: nat) returns (value: string)
    requires size > 0
    ensures value == Clip(Unescape(raw), size)
  {
    hide Unescape, Overwrite;
    var buffer := new char[size];
    ghost var was := buffer[..];
    var n := JsonUnescape(raw, buffer, size);
    value := buffer[..n];
    assert value == buffer[..][..n];
    OverwriteFront(was, Unescape(raw)[..n], Argv.NUL);
    assert Clip(Unescape(raw), size) == Unescape(raw)[..n];
  }

  /** The rest of an array after its bracket. */
  method ReadItems(json: string, p: nat, isArgv: bool, argv: seq<string>) returns (ok: bool, now: seq<string>, q: nat)
    requires p <= |json|
    ensures ok <==> Items(json[p..], isArgv, argv).Good?
    ensures ok ==> p < q <= |json| && Items(json[p..], isArgv, argv) == Good(now, json[q..])
  {
    hide SkipBlanks, TakeString, SkipNumber, Word, Push;
    q, now := p, argv;
    while true
      invariant p <= q <= |json|
      invariant Items(json[p..], isArgv, argv) == Items(json[q..], isArgv, now)
      decreases |json| - q
    {
      ghost var start := q;
      q := SkipBlanksFrom(json, q);
      if q == |json| { return false, now, q; }
      At(json, q);
      if json[q] == ']' {
        return true, now, q + 1;
      } else if json[q] == ',' {
        q := q + 1;
      } else if json[q] == '"' {
        var good, raw, after := ReadString(json, q + 1);
        if !good { return false, now, q; }
        q := after;
        if isArgv && |now| < MAX_ARGV {
          var arg := ReadInto(raw, MAX_ARG_LEN);
          PushIs(now, raw);
          now := now + [arg];
        } else if isArgv {
          PushIs(now, raw);
        }
      } else if isArgv {
        return false, now, q;
      } else if json[q] == '-' || IsNumeral(json[q]) {
        var good, after := ReadNumber(json, q);
        if !good { return false, now, q; }
        q := after;
      } else {
        var n := ReadWord(json, q);
        if n == 0 { return false, now, q; }
        DropDrop(json, q, n);
        q := q + n;
      }
    }
  }

  lemma PushIs(argv: seq<string>, raw: string)
    ensures Push(argv, raw) == if |argv| < MAX_ARGV then argv + [Clip(Unescape(raw), MAX_ARG_LEN)] else argv
  {}

  /** A number that is passed over. */
  method ReadNumber(json: string, p: nat) returns (ok: bool, q: nat)
    requires p < |json|
    ensures var u := if json[p] == '-' then json[p..][1..] else json[p..];
            && (ok <==> |u| > 0 && IsNumeral(u[0]))
            && (ok ==> p < q <= |json| && json[q..] == SkipNumber(u[1..]))
  {
    At(json, p);
    q := p;
    if json[q] == '-' { q := q + 1; }
    if q == |json| || !IsNumeral(json[q]) { return false, q; }
    At(json, q);
    ghost var from := q + 1;
    q := q + 1;
    while q < |json| && (IsNumeral(json[q]) || json[q] == '.')
      invariant from <= q <= |json| && SkipNumber(json[from..]) == SkipNumber(json[q..])
    {
      At(json, q);
      q := q + 1;
    }
    ok := true;
  }

  method ReadWord(json: string, p: nat) returns (n: nat)
    requires p <= |json|
    ensures n == Word(json[p..]) && p + n <= |json|
  {
    if p + 4 <= |json| && json[p..p + 4] == "true" {
      n := 4;
    } else if p + 5 <= |json| && json[p..p + 5] == "false" {
      n := 5;
    } else if p + 4 <= |json| && json[p..p + 4] == "null" {
      n := 4;
    } else {
      n := 0;
    }
    assert p + 4 <= |json| ==> json[p..p + 4] == json[p..][..4];
    assert p + 5 <= |json| ==> json[p..p + 5] == json[p..][..5];
  }

  /** One value, by its first character. */
  method ReadValue(json: string, p: nat, key: string, c: Command) returns (ok: bool, r: Command, q: nat)
    requires p <= |json|
    ensures ok <==> Value(json[p..], key, c).Good?
    ensures ok ==> p < q <= |json| && Value(json[p..], key, c) == Good(r, json[q..])
  {
    hide TakeString, TakeInteger, Items, Word, AssignText;
    ok, r, q := false, c, p;
    if q == |json| { return; }
    At(json, q);
    if json[q] == '"' {
      var good, raw, after := ReadString(json, q + 1);
      if !good { return; }
      r := AssignField(c, key, raw);
      ok, q := true, after;
    } else if json[q] == '[' {
      var good, argv, after := ReadItems(json, q + 1, key == "argv", c.argv);
      if !good { return; }
      ok, r, q := true, c.(argv := argv), after;
    } else if json[q] == '-' || IsNumeral(json[q]) {
      var good, n, after := ReadInteger(json, q);
      if !good { return; }
      ok, r, q := true, AssignNumber(c, key, n), after;
    } else {
      var n := ReadWord(json, q);
      if n == 0 { return; }
      DropDrop(json, q, n);
      ok, r, q := true, if json[q] == 'n' then c else AssignFlag(c, key, json[q] == 't'), q + n;
    }
  }

  method ParseJsonCommand(json: string) returns (ok: bool, c: Command)
    ensures ok <==> Object(json).Good?
    ensures ok ==> c == Object(json).value
  {
    hide SkipBlanks, Name, Value, KeyBuf;
    c := BLANK_COMMAND;
    assert json[0..] == json;
    var p := SkipBlanksFrom(json, 0);
    if p == |json| || json[p] != '{' { return false, c; }
    At(json, p);
    p := p + 1;
    while p < |json|
      invariant p <= |json| && Object(json) == Pairs(json[p..], c)
      decreases |json| - p
    {
      p := SkipBlanksFrom(json, p);
      if p == |json| { return false, c; }
      At(json, p);
      if json[p] == '}' { return true, c; }
      if json[p] == ',' {
        p := p + 1;
        continue;
      }
      if json[p] != '"' { NoName(json[p..]); return false, c; }
      var good, key, after := ReadName(json, p);
      if !good { return false, c; }
      var fine, r, next := ReadValue(json, after, KeyBuf(key), c);
      if !fine { return false, c; }
      p, c := next, r;
    }
    NothingLeft(c);
    assert json[p..] == "";
    ok := false;
  }

  lemma NoName(s: string)
    requires |s| > 0 && s[0] != '"'
    ensures Name(s).Bad?
  {}

  lemma NothingLeft(c: Command)
    ensures Pairs("", c).Bad?
  {}
}
