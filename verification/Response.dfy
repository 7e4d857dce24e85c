/**
  BuildJsonResponse of src/json_parser.c. Only the value is escaped; the identifier,
  the status and the key are put in as they are.
 */
module Response {
  import opened Text
  import opened Argv
  import opened JsonText
  import opened JsonCommand

  const MAX_RESPONSE: nat := 262144

  /** The value as it goes into the response: nothing at all if its escaped form is too long. */
  function EscapedValue(value: string): string {
    if |EscapeText(value)| < MAX_RESPONSE then EscapeText(value) else ""
  }

  function Pieces(id: string, status: string, key: string, value: string): seq<string> {
    ["{\"id\":\"", id, "\",\"status\":\"", status, "\",\"", key, "\":\"", EscapedValue(value), "\"}\n"]
  }

  function Flat(pieces: seq<string>): string { if |pieces| == 0 then "" else pieces[0] + Flat(pieces[1..]) }

  function ResponseText(id: string, status: string, key: string, value: string): string {
    Flat(Pieces(id, status, key, value))
  }

  // ------------------------------------------------------------------
  // Building
  // ------------------------------------------------------------------

  method SafeAppend(dst: array<char>, dstSize: int, pos: nat, src: string) returns (ok: bool, next: nat)
    requires pos < dstSize <= dst.Length
    modifies dst
    ensures ok <==> pos + |src| < dstSize
    ensures !ok ==> dst[..] == old(dst[..]) && next == pos
    ensures ok ==> next == pos + |src| && dst[..] == Overwrite(old(dst[..]), pos, src + [NUL])
  {
    hide Overwrite;
    ghost var was := dst[..];
    if pos + |src| >= dstSize { return false, pos; }
    OverwriteNone(was, pos);
    assert src[..0] == "";
    for i := 0 to |src|
      invariant dst[..] == Overwrite(was, pos, src[..i])
    {
      ghost var mid := dst[..];
      dst[pos + i] := src[i];
      OverwriteIs(mid, pos + i, [src[i]], dst[..]);
      OverwriteTwice(was, pos, src[..i], [src[i]]);
      assert src[..i + 1] == src[..i] + [src[i]];
    }
    ghost var mid := dst[..];
    next := pos + |src|;
    dst[next] := NUL;
    assert src[..|src|] == src;
    OverwriteIs(mid, next, [NUL], dst[..]);
    OverwriteTwice(was, pos, src, [NUL]);
    ok := true;
  }

  /** The whole response or none of it: 0 and an empty string when it does not fit. */
  method BuildJsonResponse(id: string, status: string, key: string, value: string, json: array<char>, jsonSize: int)
    returns (n: nat)
    requires jsonSize <= json.Length
    modifies json
    ensures jsonSize < 1 ==> n == 0 && json[..] == old(json[..])
    ensures 1 <= jsonSize <= |ResponseText(id, status, key, value)| ==>
              n == 0 && json[0] == NUL && json[jsonSize..] == old(json[jsonSize..])
    ensures 1 <= jsonSize && |ResponseText(id, status, key, value)| < jsonSize ==>
              n == |ResponseText(id, status, key, value)|
              && json[..] == Overwrite(old(json[..]), 0, ResponseText(id, status, key, value) + [NUL])
  {
    hide Overwrite, Confined, EscapeText, Pieces, Flat;
    if jsonSize < 1 { return 0; }
    ghost var was := json[..];
    var escaped := ValueText(value);
    json[0] := NUL;
    ghost var done: string := "";
    assert done + [NUL] == [NUL];
    OverwriteIs(was, 0, [NUL], json[..]);
    var pieces := ["{\"id\":\"", id, "\",\"status\":\"", status, "\",\"", key, "\":\"", escaped, "\"}\n"];
    ghost var text := ResponseText(id, status, key, value);
    SamePieces(id, status, key, value, escaped, pieces);
    assert pieces[0..] == pieces && "" + Flat(pieces) == Flat(pieces);
    var pos, i := 0, 0;
    while i < |pieces|
      invariant i <= |pieces| && pos == |done| < jsonSize
      invariant text == done + Flat(pieces[i..])
      invariant json[..] == Overwrite(was, 0, done + [NUL])
    {
      PieceAt(pieces, i);
      Assoc(done, pieces[i], Flat(pieces[i + 1..]));
      ghost var mid := json[..];
      var ok, next := SafeAppend(json, jsonSize, pos, pieces[i]);
      if !ok {
        json[0] := NUL;
        BeyondUntouched(was, mid, json[..], done + [NUL], jsonSize);
        return 0;
      }
      OverwriteLast(was, 0, done, NUL, pieces[i] + [NUL]);
      Assoc(done, pieces[i], [NUL]);
      pos, i, done := next, i + 1, done + pieces[i];
    }
    NoPieces();
    assert pieces[i..] == [] && text == done + "" && done + "" == done;
    n := pos;
  }

  lemma NoPieces()
    ensures Flat([]) == ""
  {}

  lemma SamePieces(id: string, status: string, key: string, value: string, escaped: string, pieces: seq<string>)
    requires escaped == EscapedValue(value)
    requires pieces == ["{\"id\":\"", id, "\",\"status\":\"", status, "\",\"", key, "\":\"", escaped, "\"}\n"]
    ensures Flat(pieces) == ResponseText(id, status, key, value)
  {
    hide EscapedValue, Flat;
  }

  lemma PieceAt(pieces: seq<string>, i: nat)
    requires i < |pieces|
    ensures Flat(pieces[i..]) == pieces[i] + Flat(pieces[i + 1..])
  {
    assert pieces[i..][1..] == pieces[i + 1..];
  }

  lemma BeyondUntouched(was: seq<char>, mid: seq<char>, now: seq<char>, stored: string, size: nat)
    requires 0 < |stored| <= size <= |was| && mid == Overwrite(was, 0, stored)
    requires |now| == |mid| && forall k :: 1 <= k < |mid| ==> now[k] == mid[k]
    ensures now[size..] == was[size..]
  {}

  method ValueText(value: string) returns (escaped: string)
    ensures escaped == EscapedValue(value)
  {
    hide EscapeText, Overwrite;
    var buffer := new char[MAX_RESPONSE];
    ghost var was := buffer[..];
    var n := JsonEscape(value, buffer, MAX_RESPONSE);
    if n < 0 { return ""; }
    escaped := buffer[..n];
    OverwriteFront(was, EscapeText(value), NUL);
    assert escaped == buffer[..][..n];
  }

  // ------------------------------------------------------------------
  // What the response says
  // ------------------------------------------------------------------

  /** Nothing in it would have to be escaped. */
  predicate Plain(s: string) { forall i :: 0 <= i < |s| ==> !HasShort(s[i]) && !IsControl(s[i]) }

  lemma {:induction false} PlainIsItself(s: string)
    requires Plain(s)
    ensures EscapeText(s) == s
  {
    if |s| > 0 {
      PlainIsItself(s[1..]);
      assert s == [s[0]] + s[1..];
    }
  }

  function Answer(id: string, status: string, key: string, value: string): seq<Pair> {
    [Pair("id", One(Str(id))), Pair("status", One(Str(status))), Pair(key, One(Str(value)))]
  }

  /**
    With a plain identifier and status, the response is the printed object of its
    three members and a line feed, if the escaped value fits its buffer.
   */
  lemma ResponseIsObject(id: string, status: string, key: string, value: string)
    requires Plain(id) && Plain(status) && |EscapeText(value)| < MAX_RESPONSE
    ensures ResponseText(id, status, key, value) == PrintObject(Answer(id, status, key, value)) + "\n"
  {
    hide *;
    PlainIsItself(id);
    PlainIsItself(status);
    var a, b, c := Pair("id", One(Str(id))), Pair("status", One(Str(status))), Pair(key, One(Str(value)));
    var end, v := "}\n", EscapedValue(value);
    EscapedIs(value);
    ObjectOfThree(a, b, c);
    FlatIs(id, status, key, value);
    PairThen(key, value, end);
    PairThen("status", status, "," + (PrintPair(c) + end));
    PairThen("id", id, "," + (PrintPair(b) + ("," + (PrintPair(c) + end))));
    var more := key + ("\":\"" + (v + ("\"" + end)));
    Middle(status + ("\",\"" + more), more);
    AnswerIs(id, status, key, value);
    First(id, "\"" + ("," + (PrintPair(b) + ("," + (PrintPair(c) + end)))));
  }

  lemma AnswerIs(id: string, status: string, key: string, value: string)
    ensures Answer(id, status, key, value)
            == [Pair("id", One(Str(id))), Pair("status", One(Str(status))), Pair(key, One(Str(value)))]
  {}

  lemma EscapedIs(value: string)
    requires |EscapeText(value)| < MAX_RESPONSE
    ensures EscapedValue(value) == EscapeText(value)
  {}

  /** The response's text, each piece before all that follow. */
  lemma FlatIs(id: string, status: string, key: string, value: string)
    ensures ResponseText(id, status, key, value)
            == "{\"id\":\"" + (id + ("\",\"status\":\"" + (status + ("\",\"" + (key + ("\":\"" + (EscapedValue(value) + ("\"" + "}\n"))))))))
  {
    var p := Pieces(id, status, key, value);
    assert |p| == 9 && p[0] == "{\"id\":\"" && p[1] == id && p[2] == "\",\"status\":\"" && p[3] == status;
    assert p[4] == "\",\"" && p[5] == key && p[6] == "\":\"" && p[7] == EscapedValue(value) && p[8] == "\"" + "}\n";
    hide *;
    NinePieces(p);
    assert ResponseText(id, status, key, value) == Flat(p) by { ResponseIsFlat(id, status, key, value); }
  }

  lemma ResponseIsFlat(id: string, status: string, key: string, value: string)
    ensures ResponseText(id, status, key, value) == Flat(Pieces(id, status, key, value))
  {}

  lemma NinePieces(p: seq<string>)
    requires |p| == 9
    ensures Flat(p) == p[0] + (p[1] + (p[2] + (p[3] + (p[4] + (p[5] + (p[6] + (p[7] + p[8])))))))
  {
    hide Flat;
    NoPieces();
    assert p[0..] == p && p[9..] == [];
    PieceAt(p, 8);
    PieceAt(p, 7);
    PieceAt(p, 6);
    PieceAt(p, 5);
    PieceAt(p, 4);
    PieceAt(p, 3);
    PieceAt(p, 2);
    PieceAt(p, 1);
    PieceAt(p, 0);
    assert p[8] + Flat(p[9..]) == p[8];
  }

  /** A printed member, taken apart before what follows it. */
  lemma PairThen(key: string, s: string, rest: string)
    ensures PrintPair(Pair(key, One(Str(s)))) + rest == "\"" + (key + ("\":\"" + (EscapeText(s) + ("\"" + rest))))
  {
    hide EscapeText;
    var e := EscapeText(s);
    assert "\":\"" == "\":" + "\"";
    assert PrintPair(Pair(key, One(Str(s)))) == "\"" + key + "\":" + ("\"" + e + "\"");
    Assoc("\"" + key, "\":", "\"" + e + "\"");
    Assoc("\"", key, "\":" + ("\"" + e + "\""));
    Assoc("\"", e, "\"");
    Assoc("\":", "\"", e + "\"");
    Assoc("\"", key + ("\":\"" + (e + "\"")), rest);
    Assoc(key, "\":\"" + (e + "\""), rest);
    Assoc("\":\"", e + "\"", rest);
    Assoc(e, "\"", rest);
  }

  lemma ObjectOfThree(a: Pair, b: Pair, c: Pair)
    ensures PrintObject([a, b, c]) + "\n" == "{" + (PrintPair(a) + ("," + (PrintPair(b) + ("," + (PrintPair(c) + "}\n")))))
  {
    hide PrintPair;
    var x, y, z := PrintPair(a), PrintPair(b), PrintPair(c);
    assert [b, c][1..] == [c] && [a, b, c][1..] == [b, c];
    assert PrintPairs([c]) == z + "" && z + "" == z;
    assert PrintPairs([b, c]) == y + ("," + z);
    assert PrintPairs([a, b, c]) == x + ("," + (y + ("," + z)));
    hide *;
    assert "}\n" == "}" + "\n";
    var all := x + ("," + (y + ("," + z)));
    assert PrintObject([a, b, c]) == "{" + all + "}" by { ObjectIs([a, b, c]); }
    Assoc("{" + all, "}", "\n");
    Assoc("{", all, "}\n");
    Assoc(x, "," + (y + ("," + z)), "}\n");
    Assoc(",", y + ("," + z), "}\n");
    Assoc(y, "," + z, "}\n");
    Assoc(",", z, "}\n");
  }

  lemma ObjectIs(ps: seq<Pair>)
    ensures PrintObject(ps) == "{" + PrintPairs(ps) + "}"
  {}

  lemma Middle(x: string, more: string)
    ensures "\",\"" + more == "\"" + ("," + ("\"" + more))
    ensures "\",\"status\":\"" + x == "\"" + ("," + ("\"" + ("status" + ("\":\"" + x))))
  {
    assert "\",\"" == "\"" + ("," + "\"");
    Assoc("\"", "," + "\"", more);
    Assoc(",", "\"", more);
    assert "\",\"status\":\"" == "\"" + ("," + ("\"" + ("status" + "\":\"")));
    Assoc("\"", "," + ("\"" + ("status" + "\":\"")), x);
    Assoc(",", "\"" + ("status" + "\":\""), x);
    Assoc("\"", "status" + "\":\"", x);
    Assoc("status", "\":\"", x);
  }

  lemma First(id: string, more: string)
    ensures "{\"id\":\"" + (id + more) == "{" + ("\"" + ("id" + ("\":\"" + (id + more))))
  {
    assert "{\"id\":\"" == "{" + ("\"" + ("id" + "\":\""));
    var x := id + more;
    Assoc("{", "\"" + ("id" + "\":\""), x);
    Assoc("\"", "id" + "\":\"", x);
    Assoc("id", "\":\"", x);
  }

  /** Read back by the command grammar, the response holds its identifier and, under a text field's name, its value. */
  lemma ResponseReadsBack(id: string, key: string, value: string)
    requires Plain(id) && |id| < Size("id") && Clean(value) && |EscapeText(value)| < MAX_RESPONSE
    requires Size(key) > 0 && |value| < Size(key) && key != "id"
    ensures var r := Object(ResponseText(id, "ok", key, value));
            && r.Good? && r.rest == "\n"
            && "id" in r.value.text && r.value.text["id"] == id
            && key in r.value.text && r.value.text[key] == value
  {
    hide *;
    var a, b, c := Pair("id", One(Str(id))), Pair("status", One(Str("ok"))), Pair(key, One(Str(value)));
    ResponseIsObject(id, "ok", key, value) by { OkIsPlain(); }
    MeaningOfThree(id, key, value, a, b, c);
    ObjectIsTaken([a, b, c], "\n");
  }

  lemma OkIsPlain()
    ensures Plain("ok")
  {}

  lemma MeaningOfThree(id: string, key: string, value: string, a: Pair, b: Pair, c: Pair)
    requires a == Pair("id", One(Str(id))) && b == Pair("status", One(Str("ok"))) && c == Pair(key, One(Str(value)))
    requires Plain(id) && |id| < Size("id") && Clean(value) && Size(key) > 0 && |value| < Size(key) && key != "id"
    ensures AllFit(BLANK_COMMAND, [a, b, c])
    ensures var m := Meaning(BLANK_COMMAND, [a, b, c]); m.text == map["id" := id, key := value]
    ensures Answer(id, "ok", key, value) == [a, b, c]
  {
    StatusIsNoField();
    KeyIsQuoteless(key);
    assert Size("id") > 0 && '"' !in "id" && '"' !in "status";
    hide Size;
    var c1 := Store(BLANK_COMMAND, a);
    assert Store(c1, b) == c1 && c1.text == map["id" := id];
    assert [a, b, c][1..] == [b, c] && [b, c][1..] == [c] && [c][1..] == [];
    assert Fits(BLANK_COMMAND, a) && Fits(c1, b) && Fits(c1, c);
    var c2 := Store(c1, c);
    assert c2.text == map["id" := id, key := value];
    hide Store, Fits, Plain, Clean;
    assert Meaning(c2, []) == c2 && AllFit(c2, []);
    assert Meaning(c1, [c]) == c2 && AllFit(c1, [c]);
    assert Meaning(c1, [b, c]) == c2 && AllFit(c1, [b, c]);
  }

  lemma StatusIsNoField()
    ensures Size("status") == 0
  {}

  lemma KeyIsQuoteless(key: string)
    requires Size(key) > 0
    ensures '"' !in key
  {}

  /**
    A value whose escaped form is too long is dropped without a word: the response is
    that of an empty value exactly for it, and for the empty value itself.
   */
  lemma LongValueIsDropped(id: string, status: string, key: string, value: string)
    ensures ResponseText(id, status, key, value) == ResponseText(id, status, key, "")
            <==> |EscapeText(value)| >= 262144 || value == ""
  {
    FlatLength(id, status, key, value);
    FlatLength(id, status, key, "");
    EscapedEmpty(value);
    hide *;
    if EscapedValue(value) == "" { SameEscaped(id, status, key, value); }
  }

  lemma FlatLength(id: string, status: string, key: string, value: string)
    ensures |ResponseText(id, status, key, value)| == |id| + |status| + |key| + |EscapedValue(value)| + 28
  {
    FlatIs(id, status, key, value);
    hide *;
  }

  lemma EscapedEmpty(value: string)
    ensures EscapedValue(value) == "" <==> |EscapeText(value)| >= 262144 || value == ""
    ensures EscapedValue("") == ""
  {
    hide EscapeChar;
  }

  lemma SameEscaped(id: string, status: string, key: string, value: string)
    requires EscapedValue(value) == "" == EscapedValue("")
    ensures ResponseText(id, status, key, value) == ResponseText(id, status, key, "")
  {
    hide EscapedValue, Flat;
  }

  // ------------------------------------------------------------------
  // A reader of flat objects of strings
  // ------------------------------------------------------------------

  datatype Member = Member(key: string, value: string)

  function ReadMembers(s: string): Parsed<seq<Member>>
    decreases |s|
  {
    var t := SkipBlanks(s);
    if |t| == 0 then Bad
    else if t[0] == '}' then Good([], t[1..])
    else if t[0] == ',' then ReadMembers(t[1..])
    else
      var name := Name(t);
      if name.Bad? || |name.rest| == 0 || name.rest[0] != '"' then Bad
      else
        var str := TakeString(name.rest[1..]);
        if str.Bad? then Bad
        else
          var more := ReadMembers(str.rest);
          if more.Bad? then Bad else Good([Member(name.value, Unescape(str.value))] + more.value, more.rest)
  }

  function ReadObject(s: string): Parsed<seq<Member>> {
    var t := SkipBlanks(s);
    if |t| == 0 || t[0] != '{' then Bad else ReadMembers(t[1..])
  }

  lemma MemberIsRead(key: string, v: string, rest: string)
    requires '"' !in key && ReadMembers(rest).Good?
    ensures var more := ReadMembers(rest);
            ReadMembers(PrintPair(Pair(key, One(Str(v)))) + rest)
            == Good([Member(key, Unescape(EscapeText(v)))] + more.value, more.rest)
  {
    hide *;
    var x := EscapeText(v) + "\"" + rest;
    var t := PrintPair(Pair(key, One(Str(v)))) + rest;
    StringIsTaken(v, rest);
    NameIsTaken(key, "\"" + x);
    PairThen(key, v, rest);
    assert t == "\"" + key + "\":" + ("\"" + x) by { Regrouped(key, EscapeText(v), rest); }
    StartsQuoted(t);
    assert ("\"" + x)[1..] == x;
    OneMember(t, key, "\"" + x, EscapeText(v), rest);
  }

  lemma StartsQuoted(t: string)
    requires |t| > 0 && t[0] == '"'
    ensures SkipBlanks(t) == t
  {
    NotBlank(t);
  }

  lemma OneMember(t: string, key: string, x: string, e: string, rest: string)
    requires SkipBlanks(t) == t && |t| > 0 && t[0] == '"' && Name(t) == Good(key, x)
    requires |x| > 0 && x[0] == '"' && TakeString(x[1..]) == Good(e, rest) && ReadMembers(rest).Good?
    ensures var more := ReadMembers(rest); ReadMembers(t) == Good([Member(key, Unescape(e))] + more.value, more.rest)
  {
    hide Unescape, TakeString, Name, SkipBlanks;
  }

  lemma Regrouped(key: string, e: string, rest: string)
    ensures "\"" + (key + ("\":\"" + (e + ("\"" + rest)))) == "\"" + key + "\":" + ("\"" + (e + "\"" + rest))
  {
    var x := e + ("\"" + rest);
    Assoc(e, "\"", rest);
    assert "\":\"" == "\":" + "\"";
    Assoc("\":", "\"", x);
    Assoc("\"", key, "\":" + ("\"" + x));
    Assoc("\"" + key, "\":", "\"" + x);
  }

  lemma MembersEnd(rest: string)
    ensures ReadMembers("}" + rest) == Good([], rest) && ReadMembers("," + rest) == ReadMembers(rest)
  {
    NotBlank("}" + rest);
    NotBlank("," + rest);
    assert ("}" + rest)[1..] == rest && ("," + rest)[1..] == rest;
    hide SkipBlanks, Name;
  }

  /**
    Whatever the status and the key, the response read back holds its three members in
    order; and its value comes back exactly if the control characters in it all have
    short escapes.
   */
  lemma ResponseIsRead(id: string, status: string, key: string, value: string)
    requires Plain(id) && Plain(status) && '"' !in key && |EscapeText(value)| < MAX_RESPONSE
    ensures var r := ReadObject(ResponseText(id, status, key, value));
            && r == Good([Member("id", id), Member("status", status), Member(key, Unescape(EscapeText(value)))], "\n")
            && (r.value[2].value == value <==> Clean(value))
  {
    var a, b, c := Pair("id", One(Str(id))), Pair("status", One(Str(status))), Pair(key, One(Str(value)));
    ResponseIsObject(id, status, key, value);
    AnswerIs(id, status, key, value);
    ObjectOfThree(a, b, c);
    UnescapeOfEscape(value);
    PlainComesBack(id);
    PlainComesBack(status);
    IdAndStatus();
    hide *;
    var end := "}" + "\n";
    assert end == "}\n";
    ThreeAreRead(a.key, id, b.key, status, key, value);
    ObjectReads(PrintPair(a) + ("," + (PrintPair(b) + ("," + (PrintPair(c) + end)))));
  }

  /** Three printed members between commas, and the end of a response. */
  lemma ThreeAreRead(k1: string, v1: string, k2: string, v2: string, k3: string, v3: string)
    requires '"' !in k1 && '"' !in k2 && '"' !in k3
    ensures var (a, b, c) := (Pair(k1, One(Str(v1))), Pair(k2, One(Str(v2))), Pair(k3, One(Str(v3))));
            ReadMembers(PrintPair(a) + ("," + (PrintPair(b) + ("," + (PrintPair(c) + ("}" + "\n"))))))
            == Good([Member(k1, Unescape(EscapeText(v1))), Member(k2, Unescape(EscapeText(v2))), Member(k3, Unescape(EscapeText(v3)))],
                    "\n")
  {
    hide *;
    var end := "}" + "\n";
    MembersEnd("\n");
    MemberIsRead(k3, v3, end);
    var z := PrintPair(Pair(k3, One(Str(v3)))) + end;
    MembersEnd(z);
    MemberIsRead(k2, v2, "," + z);
    var y := PrintPair(Pair(k2, One(Str(v2)))) + ("," + z);
    MembersEnd(y);
    MemberIsRead(k1, v1, "," + y);
    var m1, m2, m3 := Member(k1, Unescape(EscapeText(v1))), Member(k2, Unescape(EscapeText(v2))), Member(k3, Unescape(EscapeText(v3)));
    assert [m1] + ([m2] + ([m3] + [])) == [m1, m2, m3];
  }

  lemma PlainComesBack(s: string)
    requires Plain(s)
    ensures Unescape(EscapeText(s)) == s
  {
    UnescapedLength(s);
    hide EscapeText, Unescape;
  }

  lemma IdAndStatus()
    ensures '"' !in "id" && '"' !in "status"
  {}

  lemma ObjectReads(x: string)
    ensures ReadObject("{" + x) == ReadMembers(x)
  {
    NotBlank("{" + x);
    assert ("{" + x)[1..] == x;
    hide SkipBlanks, ReadMembers;
  }
}
