/**
  The scanner of src/catalog.c as functions: what each step takes from the front of
  a text and what it leaves. A step that fails leaves nothing to go on with.
 */
module CatalogGrammar {
  import opened JsonText
  import opened JsonCommand

  const MAX_ENTRIES: nat := 64
  const MAX_OPTIONS: nat := 16

  datatype Flagged = Flagged(flag: string, hasArg: bool)

  datatype Entry = Entry(name: string, builtin: bool, win32s: bool, modern: string, old16: string, options: seq<Flagged>)

  // ------------------------------------------------------------------
  // Strings
  // ------------------------------------------------------------------

  /** What the scanner takes an escaped character for; an unknown one stands for itself. */
  function Loose(e: char): char {
    match e
    case 'n' => '\n'
    case 'r' => '\r'
    case 't' => '\t'
    case 'b' => BS
    case 'f' => FF
    case _ => e
  }

  /** A string after its opening quote. */
  function Body(s: string): (r: Parsed<string>)
    ensures r.Good? ==> |r.rest| < |s|
  {
    if |s| == 0 then Bad
    else if s[0] == '"' then Good("", s[1..])
    else if s[0] == '\\' && |s| == 1 then Bad
    else
      var (c, t) := if s[0] == '\\' then (Loose(s[1]), s[2..]) else (s[0], s[1..]);
      var more := Body(t);
      if more.Bad? then Bad else Good([c] + more.value, more.rest)
  }

  function ScanString(s: string): (r: Parsed<string>)
    ensures r.Good? ==> |r.rest| + 1 < |s|
  {
    var t := SkipBlanks(s);
    if |t| == 0 || t[0] != '"' then Bad else Body(t[1..])
  }

  // ------------------------------------------------------------------
  // Brackets, keys and commas
  // ------------------------------------------------------------------

  datatype Opening = NotOpen | Hollow(rest: string) | Inside(rest: string)

  /** An opening bracket, and whether the closing one follows at once. */
  function Open(s: string, open: char, close: char): (r: Opening)
    ensures !r.NotOpen? ==> |r.rest| < |s|
  {
    var t := SkipBlanks(s);
    if |t| == 0 || t[0] != open then NotOpen
    else
      var u := SkipBlanks(t[1..]);
      if |u| > 0 && u[0] == close then Hollow(u[1..]) else Inside(u)
  }

  datatype Ending = Neither | Comma(rest: string) | Closed(rest: string)

  function Then(s: string, close: char): (r: Ending)
    ensures !r.Neither? ==> |r.rest| < |s|
  {
    var t := SkipBlanks(s);
    if |t| > 0 && t[0] == ',' then Comma(t[1..])
    else if |t| > 0 && t[0] == close then Closed(t[1..])
    else Neither
  }

  /** A member's key and colon. */
  function Key(s: string): (r: Parsed<string>)
    ensures r.Good? ==> |r.rest| < |s|
  {
    var key := ScanString(s);
    if key.Bad? then Bad
    else
      var t := SkipBlanks(key.rest);
      if |t| == 0 || t[0] != ':' then Bad else Good(key.value, t[1..])
  }

  // ------------------------------------------------------------------
  // Passing over a value
  // ------------------------------------------------------------------

  datatype Passed = Stuck | At(rest: string)

  predicate EndsLiteral(c: char) { c == ',' || c == '}' || c == ']' || IsBlank(c) }

  function LiteralRest(s: string): (r: string)
    ensures |r| <= |s|
  {
    if |s| == 0 || EndsLiteral(s[0]) then s else LiteralRest(s[1..])
  }

  /** A literal may be nothing at all: a comma or a bracket ends it where it starts. */
  function SkipLiteral(s: string): (r: Passed)
    ensures r.At? ==> |r.rest| <= |s|
  {
    var t := SkipBlanks(s);
    if |t| == 0 then Stuck else At(LiteralRest(t))
  }

  function SkipValue(s: string): (r: Passed)
    ensures r.At? ==> |r.rest| <= |s|
    decreases |s|, 1
  {
    var t := SkipBlanks(s);
    if |t| == 0 then Stuck
    else if t[0] == '"' then
      var b := Body(t[1..]);
      if b.Bad? then Stuck else At(b.rest)
    else if t[0] == '{' then SkipObject(t)
    else if t[0] == '[' then SkipArray(t)
    else SkipLiteral(t)
  }

  function SkipObject(s: string): (r: Passed)
    ensures r.At? ==> |r.rest| < |s|
    decreases |s|, 0
  {
    match Open(s, '{', '}')
    case NotOpen => Stuck
    case Hollow(rest) => At(rest)
    case Inside(t) => SkipMembers(t)
  }

  function SkipMembers(s: string): (r: Passed)
    ensures r.At? ==> |r.rest| < |s|
    decreases |s|, 2
  {
    var key := Key(s);
    if key.Bad? then Stuck
    else
      var v := SkipValue(key.rest);
      if v.Stuck? then Stuck
      else
        match Then(v.rest, '}')
        case Neither => Stuck
        case Comma(t) => SkipMembers(t)
        case Closed(t) => At(t)
  }

  function SkipArray(s: string): (r: Passed)
    ensures r.At? ==> |r.rest| < |s|
    decreases |s|, 0
  {
    match Open(s, '[', ']')
    case NotOpen => Stuck
    case Hollow(rest) => At(rest)
    case Inside(t) => SkipElements(t)
  }

  function SkipElements(s: string): (r: Passed)
    ensures r.At? ==> |r.rest| < |s|
    decreases |s|, 2
  {
    var v := SkipValue(s);
    if v.Stuck? then Stuck
    else
      match Then(v.rest, ']')
      case Neither => Stuck
      case Comma(t) => SkipElements(t)
      case Closed(t) => At(t)
  }

  // ------------------------------------------------------------------
  // The catalogue
  // ------------------------------------------------------------------

  /** One member of an option, its key already read. */
  function OptionMember(o: Flagged, key: string, s: string): (r: Parsed<Flagged>)
    ensures r.Good? ==> |r.rest| <= |s|
  {
    if key == "flag" then
      var v := ScanString(s);
      if v.Bad? then Bad else Good(o.(flag := Clip(v.value, 32)), v.rest)
    else
      var v := SkipValue(s);
      if v.Stuck? then Bad else Good(if key == "arg" then o.(hasArg := true) else o, v.rest)
  }

  function OptionMembers(s: string, o: Flagged): (r: Parsed<Flagged>)
    ensures r.Good? ==> |r.rest| < |s|
    decreases |s|
  {
    var key := Key(s);
    if key.Bad? then Bad
    else
      var m := OptionMember(o, Clip(key.value, 32), key.rest);
      if m.Bad? then Bad
      else
        match Then(m.rest, '}')
        case Neither => Bad
        case Comma(t) => OptionMembers(t, m.value)
        case Closed(t) => Good(m.value, t)
  }

  function ParseOption(s: string): (r: Parsed<Flagged>)
    ensures r.Good? ==> |r.rest| < |s|
  {
    match Open(s, '{', '}')
    case NotOpen => Bad
    case Hollow(rest) => Good(Flagged("", false), rest)
    case Inside(t) => OptionMembers(t, Flagged("", false))
  }

  /** The next element of an option list; past the limit it is only passed over. */
  function OptionElement(s: string, os: seq<Flagged>): (r: Parsed<seq<Flagged>>)
    ensures r.Good? ==> |r.rest| <= |s|
  {
    if |os| < MAX_OPTIONS then
      var o := ParseOption(s);
      if o.Bad? then Bad else Good(os + [o.value], o.rest)
    else
      var v := SkipValue(s);
      if v.Stuck? then Bad else Good(os, v.rest)
  }

  function OptionElements(s: string, os: seq<Flagged>): (r: Parsed<seq<Flagged>>)
    ensures r.Good? ==> |r.rest| < |s|
    decreases |s|
  {
    var e := OptionElement(s, os);
    if e.Bad? then Bad
    else
      match Then(e.rest, ']')
      case Neither => Bad
      case Comma(t) => OptionElements(t, e.value)
      case Closed(t) => Good(e.value, t)
  }

  function ParseOptions(s: string, os: seq<Flagged>): (r: Parsed<seq<Flagged>>)
    ensures r.Good? ==> |r.rest| < |s|
  {
    match Open(s, '[', ']')
    case NotOpen => Bad
    case Hollow(rest) => Good(os, rest)
    case Inside(t) => OptionElements(t, os)
  }

  function EntryMember(e: Entry, key: string, s: string): (r: Parsed<Entry>)
    ensures r.Good? ==> |r.rest| <= |s|
  {
    if key == "kind" then
      var v := ScanString(s);
      if v.Bad? then Bad else Good(e.(builtin := Clip(v.value, 32) == "shell-builtin"), v.rest)
    else if key == "shell_modern" then
      var v := ScanString(s);
      if v.Bad? then Bad else Good(e.(modern := Clip(v.value, 128)), v.rest)
    else if key == "shell_win32s" then
      var v := ScanString(s);
      if v.Bad? then Bad else Good(e.(old16 := Clip(v.value, 128)), v.rest)
    else if key == "supports_win32s" then
      var (t, v) := (SkipBlanks(s), SkipLiteral(s));
      if v.Stuck? then Bad else Good(if t[0] == 't' then e.(win32s := true) else e, v.rest)
    else if key == "options" then
      var v := ParseOptions(s, e.options);
      if v.Bad? then Bad else Good(e.(options := v.value), v.rest)
    else
      var v := SkipValue(s);
      if v.Stuck? then Bad else Good(e, v.rest)
  }

  function EntryMembers(s: string, e: Entry): (r: Parsed<Entry>)
    ensures r.Good? ==> |r.rest| < |s|
    decreases |s|
  {
    var key := Key(s);
    if key.Bad? then Bad
    else
      var m := EntryMember(e, Clip(key.value, 32), key.rest);
      if m.Bad? then Bad
      else
        match Then(m.rest, '}')
        case Neither => Bad
        case Comma(t) => EntryMembers(t, m.value)
        case Closed(t) => Good(m.value, t)
  }

  function NewEntry(name: string): Entry { Entry(name, false, false, "", "", []) }

  function ParseEntry(s: string, name: string): (r: Parsed<Entry>)
    ensures r.Good? ==> |r.rest| < |s|
  {
    match Open(s, '{', '}')
    case NotOpen => Bad
    case Hollow(rest) => Good(NewEntry(name), rest)
    case Inside(t) => EntryMembers(t, NewEntry(name))
  }

  /** Named entries one after another; one too many is an error. */
  function Commands(s: string, es: seq<Entry>): (r: Parsed<seq<Entry>>)
    ensures r.Good? ==> |r.rest| < |s|
    decreases |s|
  {
    var key := Key(s);
    if key.Bad? || |es| >= MAX_ENTRIES then Bad
    else
      var e := ParseEntry(key.rest, Clip(key.value, 64));
      if e.Bad? then Bad
      else
        match Then(e.rest, '}')
        case Neither => Bad
        case Comma(t) => Commands(t, es + [e.value])
        case Closed(t) => Good(es + [e.value], t)
  }

  function ParseCommands(s: string, es: seq<Entry>): (r: Parsed<seq<Entry>>)
    ensures r.Good? ==> |r.rest| < |s|
  {
    match Open(s, '{', '}')
    case NotOpen => Bad
    case Hollow(rest) => Good(es, rest)
    case Inside(t) => Commands(t, es)
  }

  function TopMember(es: seq<Entry>, key: string, s: string): (r: Parsed<seq<Entry>>)
    ensures r.Good? ==> |r.rest| <= |s|
  {
    if key == "commands" then ParseCommands(s, es)
    else
      var v := SkipValue(s);
      if v.Stuck? then Bad else Good(es, v.rest)
  }

  function TopMembers(s: string, es: seq<Entry>): (r: Parsed<seq<Entry>>)
    ensures r.Good? ==> |r.rest| < |s|
    decreases |s|
  {
    var key := Key(s);
    if key.Bad? then Bad
    else
      var m := TopMember(es, Clip(key.value, 32), key.rest);
      if m.Bad? then Bad
      else
        match Then(m.rest, '}')
        case Neither => Bad
        case Comma(t) => TopMembers(t, m.value)
        case Closed(t) => Good(m.value, t)
  }

  function ParseTop(s: string): Parsed<seq<Entry>> {
    match Open(s, '{', '}')
    case NotOpen => Bad
    case Hollow(rest) => Good([], rest)
    case Inside(t) => TopMembers(t, [])
  }

  /** A catalogue that holds no entry is none. */
  function Load(s: string): Parsed<seq<Entry>> {
    var r := ParseTop(s);
    if r.Bad? || |r.value| == 0 then Bad else r
  }
}
