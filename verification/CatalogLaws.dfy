/**
  The catalogue's scanner against a JSON printer: values of any nesting are passed
  over whole, and a printed catalogue comes back as what its tree says.
 */
module CatalogLaws {
  import opened Text
  import opened JsonText
  import opened JsonCommand
  import opened CatalogGrammar

  // ------------------------------------------------------------------
  // Trees and their texts
  // ------------------------------------------------------------------

  /** A JSON value; a number, true, false and null are the word they are written as. */
  datatype Json = Quoted(s: string) | Word(w: string) | Object(members: Members) | Array(items: Items)

  datatype Members = NoMembers | Member(key: string, value: Json, more: Members)

  datatype Items = NoItems | Item(value: Json, more: Items)

  type Gap = s: string | forall i :: 0 <= i < |s| ==> IsBlank(s[i]) witness ""

  /**
    Where the blanks of a text stand: before and after a member or an item, around its
    colon, and the same again inside its value and in the members behind it. A tight
    layout has none from there on.
   */
  datatype Layout = Tight | Gaps(before: Gap, colon: Gap, value: Gap, after: Gap, inner: Layout, next: Layout)

  function Laid(g: Layout): (r: Layout)
    ensures r.Gaps?
  {
    if g.Tight? then Gaps("", "", "", "", Tight, Tight) else g
  }

  /** The text of a value in some layout. */
  function PrintJson(v: Json, g: Layout): string {
    match v
    case Quoted(s) => "\"" + EscapeText(s) + "\""
    case Word(w) => w
    case Object(ms) => "{" + PrintMembers(ms, g) + "}"
    case Array(items) => "[" + PrintElements(items, g) + "]"
  }

  function PrintKey(key: string, l: Layout): string
    requires l.Gaps?
  {
    l.before + ("\"" + EscapeText(key) + "\"") + l.colon + ":" + l.value
  }

  function PrintMembers(ms: Members, g: Layout): string {
    var l := Laid(g);
    match ms
    case NoMembers => l.before
    case Member(key, v, more) =>
      PrintKey(key, l) + PrintJson(v, l.inner) + l.after + (if more.NoMembers? then "" else "," + PrintMembers(more, l.next))
  }

  function PrintElements(items: Items, g: Layout): string {
    var l := Laid(g);
    match items
    case NoItems => l.before
    case Item(v, more) =>
      l.before + PrintJson(v, l.inner) + l.after + (if more.NoItems? then "" else "," + PrintElements(more, l.next))
  }

  /** A word is at least one character, none of them a delimiter, and starts nothing else. */
  predicate IsWord(w: string) {
    && |w| > 0 && w[0] != '"' && w[0] != '{' && w[0] != '['
    && forall i :: 0 <= i < |w| ==> !EndsLiteral(w[i])
  }

  predicate Words(v: Json) {
    match v
    case Quoted(_) => true
    case Word(w) => IsWord(w)
    case Object(ms) => MemberWords(ms)
    case Array(items) => ItemWords(items)
  }

  predicate MemberWords(ms: Members) { ms.Member? ==> Words(ms.value) && MemberWords(ms.more) }

  predicate ItemWords(items: Items) { items.Item? ==> Words(items.value) && ItemWords(items.more) }

  /** What follows a value. */
  predicate Delimits(rest: string) { |rest| > 0 && EndsLiteral(rest[0]) }

  // ------------------------------------------------------------------
  // Strings as the scanner hears them
  // ------------------------------------------------------------------

  /** A control character without a short escape is heard as the five characters of its escape. */
  function HeardChar(c: char): string {
    if IsControl(c) && !HasShort(c) then EscapeChar(c)[1..] else [c]
  }

  function Heard(s: string): string { if |s| == 0 then "" else HeardChar(s[0]) + Heard(s[1..]) }

  lemma {:induction false} HeardIsExact(s: string)
    ensures |Heard(s)| >= |s| && (Heard(s) == s <==> Clean(s))
    ensures |Heard(s)| == |s| <==> Clean(s)
  {
    if |s| > 0 {
      HeardIsExact(s[1..]);
      LongEscape(s[0]);
      assert s == [s[0]] + s[1..];
      assert Clean(s) <==> Clean(s[1..]) && (IsControl(s[0]) ==> HasShort(s[0]));
    }
  }

  lemma {:induction false} PlainIsHeard(t: string, rest: string)
    requires forall i :: 0 <= i < |t| ==> t[i] != '\\' && t[i] != '"'
    ensures Body(t + rest) == if Body(rest).Bad? then Bad else Good(t + Body(rest).value, Body(rest).rest)
  {
    if |t| == 0 {
      assert t + rest == rest;
      if Body(rest).Good? { assert t + Body(rest).value == Body(rest).value; }
    } else {
      assert (t + rest)[1..] == t[1..] + rest;
      PlainIsHeard(t[1..], rest);
      if Body(rest).Good? {
        Assoc([t[0]], t[1..], Body(rest).value);
        assert t == [t[0]] + t[1..];
      }
    }
  }

  lemma PairIsHeard(e: char, rest: string)
    ensures Body(['\\', e] + rest) == if Body(rest).Bad? then Bad else Good([Loose(e)] + Body(rest).value, Body(rest).rest)
  {
    assert (['\\', e] + rest)[2..] == rest;
    hide Loose;
  }

  lemma CharIsHeard(c: char, rest: string)
    requires Body(rest).Good?
    ensures Body(EscapeChar(c) + rest) == Good(HeardChar(c) + Body(rest).value, Body(rest).rest)
  {
    hide Body, Loose, HasShort, Hex, ShortLetter;
    if HasShort(c) {
      PairIsHeard(ShortLetter(c), rest);
      ShortIsLoose(c);
    } else if IsControl(c) {
      var t := ['0', '0', Hex(c as int / 16), Hex(c as int % 16)];
      assert EscapeChar(c) == ['\\', 'u'] + t && HeardChar(c) == ['u'] + t;
      Assoc(['\\', 'u'], t, rest);
      PairIsHeard('u', t + rest);
      HexIsPlain(c as int / 16);
      HexIsPlain(c as int % 16);
      PlainIsHeard(t, rest);
      UIsLoose();
      Assoc(['u'], t, Body(rest).value);
    } else {
      PlainIsHeard([c], rest) by { BackslashHasShort(); QuoteHasShort(); }
    }
  }

  lemma ShortIsLoose(c: char)
    requires HasShort(c)
    ensures Loose(ShortLetter(c)) == c && HeardChar(c) == [c]
  {}

  lemma UIsLoose()
    ensures Loose('u') == 'u'
  {}

  lemma {:induction false} TextIsHeard(s: string, rest: string)
    ensures Body(EscapeText(s) + "\"" + rest) == Good(Heard(s), rest)
  {
    hide EscapeChar, HeardChar, Body;
    if |s| == 0 {
      assert EscapeText(s) + "\"" + rest == "\"" + rest;
      BodyEnds(rest);
    } else {
      TextIsHeard(s[1..], rest);
      var e, more := EscapeChar(s[0]), EscapeText(s[1..]);
      Assoc(e, more, "\"");
      Assoc(e, more + "\"", rest);
      CharIsHeard(s[0], more + "\"" + rest);
    }
  }

  lemma BodyEnds(rest: string)
    ensures Body("\"" + rest) == Good("", rest)
  {
    assert ("\"" + rest)[1..] == rest;
  }

  /** A printed string before anything. */
  lemma StringIsScanned(s: string, rest: string)
    ensures ScanString("\"" + EscapeText(s) + "\"" + rest) == Good(Heard(s), rest)
  {
    TextIsHeard(s, rest);
    hide EscapeText, Body, Heard;
    var x := EscapeText(s) + "\"" + rest;
    assert "\"" + EscapeText(s) + "\"" + rest == "\"" + x;
    NotBlank("\"" + x);
    assert ("\"" + x)[1..] == x;
  }

  // ------------------------------------------------------------------
  // Blanks before a token
  // ------------------------------------------------------------------

  lemma {:induction false} BlanksAreSkipped(b: Gap, s: string)
    ensures SkipBlanks(b + s) == SkipBlanks(s)
  {
    if |b| == 0 {
      assert b + s == s;
    } else {
      assert (b + s)[1..] == b[1..] + s;
      BlanksAreSkipped(b[1..], s);
    }
  }

  lemma BlanksBeforeString(b: Gap, s: string)
    ensures ScanString(b + s) == ScanString(s)
  {
    BlanksAreSkipped(b, s);
    hide SkipBlanks, Body;
  }

  lemma BlanksBeforeKey(b: Gap, s: string)
    ensures Key(b + s) == Key(s)
  {
    BlanksBeforeString(b, s);
    hide ScanString;
  }

  lemma BlanksBeforeThen(b: Gap, s: string, close: char)
    ensures Then(b + s, close) == Then(s, close)
  {
    BlanksAreSkipped(b, s);
    hide SkipBlanks;
  }

  lemma BlanksBeforeOpen(b: Gap, s: string, open: char, close: char)
    ensures Open(b + s, open, close) == Open(s, open, close)
  {
    BlanksAreSkipped(b, s);
    hide SkipBlanks;
  }

  lemma BlanksBeforeLiteral(b: Gap, s: string)
    ensures SkipLiteral(b + s) == SkipLiteral(s)
  {
    BlanksAreSkipped(b, s);
    hide SkipBlanks, LiteralRest;
  }

  lemma BlanksBeforeValue(b: Gap, s: string)
    ensures SkipValue(b + s) == SkipValue(s)
  {
    BlanksAreSkipped(b, s);
    hide SkipBlanks, Body, SkipObject, SkipArray, SkipLiteral;
  }

  lemma BlanksBeforeMembers(b: Gap, s: string)
    ensures SkipMembers(b + s) == SkipMembers(s)
  {
    BlanksBeforeKey(b, s);
    hide Key, Then, SkipValue;
  }

  lemma BlanksBeforeElements(b: Gap, s: string)
    ensures SkipElements(b + s) == SkipElements(s)
  {
    BlanksBeforeValue(b, s);
    hide Then, SkipValue;
  }

  // ------------------------------------------------------------------
  // Keys, commas and brackets
  // ------------------------------------------------------------------

  lemma KeyIsScanned(key: string, l: Layout, rest: string)
    requires l.Gaps?
    ensures Key(PrintKey(key, l) + rest) == Good(Heard(key), l.value + rest)
  {
    hide *;
    var q := "\"" + EscapeText(key) + "\"";
    var x := l.colon + (":" + (l.value + rest));
    assert PrintKey(key, l) + rest == l.before + (q + x) by { KeyText(key, l, rest); }
    BlanksBeforeKey(l.before, q + x);
    StringIsScanned(key, x);
    ColonIsFound(q + x, Heard(key), l.colon, l.value + rest);
  }

  lemma KeyText(key: string, l: Layout, rest: string)
    requires l.Gaps?
    ensures PrintKey(key, l) + rest == l.before + ("\"" + EscapeText(key) + "\"" + (l.colon + (":" + (l.value + rest))))
  {
    hide EscapeText;
    var q := "\"" + EscapeText(key) + "\"";
    Assoc(l.before + q + l.colon + ":", l.value, rest);
    Assoc(l.before + q + l.colon, ":", l.value + rest);
    Assoc(l.before + q, l.colon, ":" + (l.value + rest));
    Assoc(l.before, q, l.colon + (":" + (l.value + rest)));
  }

  lemma ColonIsFound(s: string, key: string, b: Gap, rest: string)
    requires ScanString(s) == Good(key, b + (":" + rest))
    ensures Key(s) == Good(key, rest)
  {
    hide ScanString;
    BlanksAreSkipped(b, ":" + rest);
    NotBlank(":" + rest);
    assert (":" + rest)[1..] == rest;
    hide SkipBlanks;
  }

  lemma ThenIs(b: Gap, rest: string, close: char)
    requires close == '}' || close == ']'
    ensures Then(b + ("," + rest), close) == Comma(rest) && Then(b + ([close] + rest), close) == Closed(rest)
  {
    BlanksBeforeThen(b, "," + rest, close);
    BlanksBeforeThen(b, [close] + rest, close);
    NotBlank("," + rest);
    NotBlank([close] + rest);
    assert ("," + rest)[1..] == rest && ([close] + rest)[1..] == rest;
    hide SkipBlanks;
  }

  /** Blanks behind an opening bracket are skipped before the closing one is looked for. */
  lemma OpenIs(open: char, close: char, b: Gap, s: string)
    requires (open == '{' && close == '}') || (open == '[' && close == ']')
    requires |s| > 0 && !IsBlank(s[0])
    ensures Open([open] + (b + s), open, close) == if s[0] == close then Hollow(s[1..]) else Inside(s)
  {
    NotBlank([open] + (b + s));
    assert ([open] + (b + s))[1..] == b + s;
    BlanksAreSkipped(b, s);
    NotBlank(s);
    hide SkipBlanks;
  }

  /** A printed value starts with no blank and no bracket that closes. */
  lemma StartsValue(v: Json, g: Layout, rest: string)
    requires Words(v)
    ensures var t := PrintJson(v, g) + rest; |t| > 0 && !IsBlank(t[0]) && t[0] != ']' && t[0] != '}' && t[0] != ','
  {
    hide EscapeText, PrintMembers, PrintElements;
  }

  // ------------------------------------------------------------------
  // Values are passed over whole
  // ------------------------------------------------------------------

  lemma {:induction false} WordIsPassed(w: string, rest: string)
    requires (forall i :: 0 <= i < |w| ==> !EndsLiteral(w[i])) && Delimits(rest)
    ensures LiteralRest(w + rest) == rest
  {
    if |w| == 0 {
      assert w + rest == rest;
    } else {
      assert (w + rest)[1..] == w[1..] + rest;
      WordIsPassed(w[1..], rest);
    }
  }

  /** Passing over a printed value in any layout leaves exactly what follows it. */
  lemma {:induction false} ValueIsPassed(v: Json, g: Layout, rest: string)
    requires Words(v) && Delimits(rest)
    ensures SkipValue(PrintJson(v, g) + rest) == At(rest)
    decreases v, 1
  {
    match v
    case Quoted(s) =>
      QuotedIsPassed(s, rest);
      hide EscapeText, SkipValue;
    case Word(w) => WordValueIsPassed(w, rest);
    case Object(ms) =>
      MembersArePassed(ms, g, rest);
      hide SkipValue, SkipMembers, PrintMembers;
      ObjectIsPassed(ms, g, rest);
    case Array(items) =>
      ItemsArePassed(items, g, rest);
      hide SkipValue, SkipElements, PrintElements;
      ArrayIsPassed(items, g, rest);
  }

  lemma QuotedIsPassed(s: string, rest: string)
    ensures SkipValue("\"" + EscapeText(s) + "\"" + rest) == At(rest)
  {
    TextIsHeard(s, rest);
    hide EscapeText, Body, Heard;
    var x := EscapeText(s) + "\"" + rest;
    assert "\"" + EscapeText(s) + "\"" + rest == "\"" + x;
    NotBlank("\"" + x);
    assert ("\"" + x)[1..] == x;
  }

  lemma WordValueIsPassed(w: string, rest: string)
    requires IsWord(w) && Delimits(rest)
    ensures SkipValue(w + rest) == At(rest)
  {
    WordIsPassed(w, rest);
    NotBlank(w + rest);
    hide LiteralRest, SkipBlanks;
  }

  /** What SkipMembers makes of printed members and the brace after them. */
  predicate MembersPass(ms: Members, g: Layout, rest: string) {
    ms.NoMembers? || SkipMembers(PrintMembers(ms, g) + "}" + rest) == At(rest)
  }

  predicate ItemsPass(items: Items, g: Layout, rest: string) {
    items.NoItems? || SkipElements(PrintElements(items, g) + "]" + rest) == At(rest)
  }

  /** What stands after the value of a member. */
  function AfterMember(ms: Members, g: Layout, rest: string): (r: string)
    requires ms.Member?
    ensures Delimits(r)
  {
    var l := Laid(g);
    l.after + (if ms.more.NoMembers? then "}" + rest else "," + (PrintMembers(ms.more, l.next) + "}" + rest))
  }

  function AfterItem(items: Items, g: Layout, rest: string): (r: string)
    requires items.Item?
    ensures Delimits(r)
  {
    var l := Laid(g);
    l.after + (if items.more.NoItems? then "]" + rest else "," + (PrintElements(items.more, l.next) + "]" + rest))
  }

  lemma MemberText(ms: Members, g: Layout, rest: string)
    requires ms.Member?
    ensures PrintMembers(ms, g) + "}" + rest
            == PrintKey(ms.key, Laid(g)) + (PrintJson(ms.value, Laid(g).inner) + AfterMember(ms, g, rest))
  {
    hide *;
    var l := Laid(g);
    var q, v := PrintKey(ms.key, l), PrintJson(ms.value, l.inner);
    var tail := if ms.more.NoMembers? then "" else "," + PrintMembers(ms.more, l.next);
    assert PrintMembers(ms, g) == q + v + l.after + tail by { MemberPrint(ms, g); }
    TailText(q, v, l.after, tail, "}", rest);
    MemberTail(ms, g, tail, rest);
  }

  lemma MemberPrint(ms: Members, g: Layout)
    requires ms.Member?
    ensures var l := Laid(g);
            PrintMembers(ms, g) == PrintKey(ms.key, l) + PrintJson(ms.value, l.inner) + l.after
                                   + (if ms.more.NoMembers? then "" else "," + PrintMembers(ms.more, l.next))
  {
    hide PrintKey, PrintJson, Laid;
  }

  lemma TailText(q: string, v: string, after: string, tail: string, close: string, rest: string)
    ensures q + v + after + tail + close + rest == q + (v + (after + (tail + (close + rest))))
  {
    Assoc(q + v + after + tail, close, rest);
    Assoc(q + v + after, tail, close + rest);
    Assoc(q + v, after, tail + (close + rest));
    Assoc(q, v, after + (tail + (close + rest)));
  }

  lemma MemberTail(ms: Members, g: Layout, tail: string, rest: string)
    requires ms.Member? && tail == if ms.more.NoMembers? then "" else "," + PrintMembers(ms.more, Laid(g).next)
    ensures Laid(g).after + (tail + ("}" + rest)) == AfterMember(ms, g, rest)
  {
    hide PrintMembers, Laid;
    if ms.more.NoMembers? {
      assert "" + ("}" + rest) == "}" + rest;
    } else {
      var more := PrintMembers(ms.more, Laid(g).next);
      Assoc(",", more, "}" + rest);
      Assoc(more, "}", rest);
    }
  }

  lemma ItemText(items: Items, g: Layout, rest: string)
    requires items.Item?
    ensures PrintElements(items, g) + "]" + rest
            == Laid(g).before + (PrintJson(items.value, Laid(g).inner) + AfterItem(items, g, rest))
  {
    hide *;
    var l := Laid(g);
    var v, tail := PrintJson(items.value, l.inner), if items.more.NoItems? then "" else "," + PrintElements(items.more, l.next);
    assert PrintElements(items, g) == l.before + v + l.after + tail by { ItemPrint(items, g); }
    TailText(l.before, v, l.after, tail, "]", rest);
    ItemTail(items, g, tail, rest);
  }

  lemma ItemPrint(items: Items, g: Layout)
    requires items.Item?
    ensures var l := Laid(g);
            PrintElements(items, g) == l.before + PrintJson(items.value, l.inner) + l.after
                                       + (if items.more.NoItems? then "" else "," + PrintElements(items.more, l.next))
  {
    hide PrintJson, Laid;
  }

  lemma ItemTail(items: Items, g: Layout, tail: string, rest: string)
    requires items.Item? && tail == if items.more.NoItems? then "" else "," + PrintElements(items.more, Laid(g).next)
    ensures Laid(g).after + (tail + ("]" + rest)) == AfterItem(items, g, rest)
  {
    hide PrintElements, Laid;
    if items.more.NoItems? {
      assert "" + ("]" + rest) == "]" + rest;
    } else {
      var more := PrintElements(items.more, Laid(g).next);
      Assoc(",", more, "]" + rest);
      Assoc(more, "]", rest);
    }
  }

  lemma MembersStart(ms: Members, g: Layout, rest: string) returns (t: string)
    ensures PrintMembers(ms, g) + "}" + rest == Laid(g).before + t
    ensures |t| > 0 && !IsBlank(t[0]) && (t[0] == '}' <==> ms.NoMembers?) && (ms.NoMembers? ==> t[1..] == rest)
  {
    var l := Laid(g);
    if ms.NoMembers? {
      t := "}" + rest;
      Assoc(l.before, "}", rest);
    } else {
      hide *;
      var x := l.value + (PrintJson(ms.value, l.inner) + AfterMember(ms, g, rest));
      MemberText(ms, g, rest);
      KeyText(ms.key, l, PrintJson(ms.value, l.inner) + AfterMember(ms, g, rest));
      t := "\"" + EscapeText(ms.key) + "\"" + (l.colon + (":" + x));
      QuoteStarts(t);
    }
  }

  lemma QuoteStarts(t: string)
    requires |t| > 0 && t[0] == '"'
    ensures !IsBlank(t[0])
  {}

  lemma ItemsStart(items: Items, g: Layout, rest: string) returns (t: string)
    requires ItemWords(items)
    ensures PrintElements(items, g) + "]" + rest == Laid(g).before + t
    ensures |t| > 0 && !IsBlank(t[0]) && (t[0] == ']' <==> items.NoItems?) && (items.NoItems? ==> t[1..] == rest)
  {
    hide PrintJson;
    var l := Laid(g);
    if items.NoItems? {
      t := "]" + rest;
      Assoc(l.before, "]", rest);
    } else {
      ItemText(items, g, rest);
      StartsValue(items.value, l.inner, AfterItem(items, g, rest));
      t := PrintJson(items.value, l.inner) + AfterItem(items, g, rest);
      hide *;
    }
  }

  /** A printed object opens into its members, the blanks in front of them skipped. */
  lemma ObjectOpens(ms: Members, g: Layout, rest: string) returns (t: string)
    ensures PrintMembers(ms, g) + "}" + rest == Laid(g).before + t
    ensures Open(PrintJson(Object(ms), g) + rest, '{', '}') == if ms.NoMembers? then Hollow(rest) else Inside(t)
  {
    hide PrintMembers, Open;
    t := MembersStart(ms, g, rest);
    var x := PrintMembers(ms, g) + "}" + rest;
    assert PrintJson(Object(ms), g) + rest == "{" + x;
    OpenIs('{', '}', Laid(g).before, t);
  }

  lemma ArrayOpens(items: Items, g: Layout, rest: string) returns (t: string)
    requires ItemWords(items)
    ensures PrintElements(items, g) + "]" + rest == Laid(g).before + t
    ensures Open(PrintJson(Array(items), g) + rest, '[', ']') == if items.NoItems? then Hollow(rest) else Inside(t)
  {
    hide PrintElements, Open;
    t := ItemsStart(items, g, rest);
    var x := PrintElements(items, g) + "]" + rest;
    assert PrintJson(Array(items), g) + rest == "[" + x;
    OpenIs('[', ']', Laid(g).before, t);
  }

  lemma ObjectIsPassed(ms: Members, g: Layout, rest: string)
    requires MembersPass(ms, g, rest)
    ensures SkipValue(PrintJson(Object(ms), g) + rest) == At(rest)
  {
    hide SkipMembers, PrintMembers, Open, Laid;
    var t := ObjectOpens(ms, g, rest);
    BlanksBeforeMembers(Laid(g).before, t);
    NotBlank(PrintJson(Object(ms), g) + rest);
  }

  lemma ArrayIsPassed(items: Items, g: Layout, rest: string)
    requires ItemsPass(items, g, rest) && ItemWords(items)
    ensures SkipValue(PrintJson(Array(items), g) + rest) == At(rest)
  {
    hide SkipElements, PrintElements, Open, Laid;
    var t := ArrayOpens(items, g, rest);
    BlanksBeforeElements(Laid(g).before, t);
    NotBlank(PrintJson(Array(items), g) + rest);
  }

  /** A member's key is found in front of its value, and after that a comma or the brace. */
  lemma MemberSplits(ms: Members, g: Layout, rest: string)
    requires ms.Member?
    ensures var l := Laid(g);
            var (after, x) := (AfterMember(ms, g, rest), PrintMembers(ms, g) + "}" + rest);
            && Key(x) == Good(Heard(ms.key), l.value + (PrintJson(ms.value, l.inner) + after))
            && Then(after, '}') == if ms.more.NoMembers? then Closed(rest) else Comma(PrintMembers(ms.more, l.next) + "}" + rest)
  {
    hide PrintJson, PrintKey, Key, Then, PrintMembers, Heard, Laid;
    var l := Laid(g);
    MemberText(ms, g, rest);
    KeyIsScanned(ms.key, l, PrintJson(ms.value, l.inner) + AfterMember(ms, g, rest));
    ThenIs(l.after, rest, '}');
    ThenIs(l.after, PrintMembers(ms.more, l.next) + "}" + rest, '}');
  }

  lemma ItemSplits(items: Items, g: Layout, rest: string)
    requires items.Item?
    ensures var l := Laid(g);
            && PrintElements(items, g) + "]" + rest == l.before + (PrintJson(items.value, l.inner) + AfterItem(items, g, rest))
            && Then(AfterItem(items, g, rest), ']')
               == if items.more.NoItems? then Closed(rest) else Comma(PrintElements(items.more, l.next) + "]" + rest)
  {
    hide PrintJson, Then, PrintElements, Laid;
    var l := Laid(g);
    ItemText(items, g, rest);
    ThenIs(l.after, rest, ']');
    ThenIs(l.after, PrintElements(items.more, l.next) + "]" + rest, ']');
  }

  lemma {:induction false} MembersArePassed(ms: Members, g: Layout, rest: string)
    requires MemberWords(ms)
    ensures MembersPass(ms, g, rest)
    decreases ms, 0
  {
    if ms.Member? {
      var l, after := Laid(g), AfterMember(ms, g, rest);
      ValueIsPassed(ms.value, l.inner, after);
      MembersArePassed(ms.more, l.next, rest);
      hide PrintJson, SkipValue, Key, Then, PrintMembers, Laid, AfterMember;
      MemberSplits(ms, g, rest);
      BlanksBeforeValue(l.value, PrintJson(ms.value, l.inner) + after);
    }
  }

  lemma {:induction false} ItemsArePassed(items: Items, g: Layout, rest: string)
    requires ItemWords(items)
    ensures ItemsPass(items, g, rest)
    decreases items, 0
  {
    if items.Item? {
      var l, after := Laid(g), AfterItem(items, g, rest);
      ValueIsPassed(items.value, l.inner, after);
      ItemsArePassed(items.more, l.next, rest);
      hide PrintJson, SkipValue, Then, PrintElements, Laid, AfterItem;
      ItemSplits(items, g, rest);
      BlanksBeforeValue(l.before, PrintJson(items.value, l.inner) + after);
    }
  }
}
