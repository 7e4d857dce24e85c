/**
  The recursive-descent scanner and parser of src/catalog.c, as it runs: one cursor
  that every routine moves on, proved against the grammar of CatalogGrammar.
 */
module CatalogScanner {
  import opened Text
  import opened JsonCommand
  import opened CatalogGrammar

  lemma RestAt(text: string, p: nat)
    requires p < |text|
    ensures text[p..][0] == text[p] && text[p..][1..] == text[p + 1..] && |text[p..]| == |text| - p
  {}

  /** `heard` has been taken from the front of a string; `rest` is still to come. */
  predicate HeardSoFar(from: string, heard: string, rest: string) {
    Body(from) == if Body(rest).Bad? then Bad else Good(heard + Body(rest).value, Body(rest).rest)
  }

  lemma NothingHeard(from: string)
    ensures HeardSoFar(from, "", from)
  {
    if Body(from).Good? { assert "" + Body(from).value == Body(from).value; }
  }

  /** One more character, plain or escaped. */
  lemma HearOne(from: string, heard: string, text: string, p: nat)
    requires p <= |text| && HeardSoFar(from, heard, text[p..])
    ensures p == |text| ==> Body(from).Bad?
    ensures p < |text| && text[p] == '"' ==> Body(from) == Good(heard, text[p + 1..])
    ensures p + 1 == |text| && text[p] == '\\' ==> Body(from).Bad?
    ensures p + 1 < |text| && text[p] == '\\' ==> HeardSoFar(from, heard + [Loose(text[p + 1])], text[p + 2..])
    ensures p < |text| && text[p] != '"' && text[p] != '\\' ==> HeardSoFar(from, heard + [text[p]], text[p + 1..])
  {
    hide Loose;
    if p < |text| {
      RestAt(text, p);
      if text[p] == '"' { assert heard + "" == heard; }
      if text[p] == '\\' && p + 1 < |text| {
        DropDrop(text, p, 2);
        RestAt(text, p + 1);
        More(from, heard, Loose(text[p + 1]), text[p..], text[p + 2..]);
      } else if text[p] != '"' && text[p] != '\\' {
        More(from, heard, text[p], text[p..], text[p + 1..]);
      }
    }
  }

  lemma More(from: string, heard: string, c: char, rest: string, after: string)
    requires HeardSoFar(from, heard, rest)
    requires Body(rest) == if Body(after).Bad? then Bad else Good([c] + Body(after).value, Body(after).rest)
    ensures HeardSoFar(from, heard + [c], after)
  {
    if Body(after).Good? { Assoc(heard, [c], Body(after).value); }
  }

  lemma KeepOne(heard: string, c: char, size: nat)
    requires size > 0
    ensures Clip(heard + [c], size) == Clip(heard, size) + if |heard| + 1 < size then [c] else []
  {
    if |heard| + 1 >= size && |heard| >= size { assert (heard + [c])[..size - 1] == heard[..size - 1]; }
  }

  class Scanner {
    const text: string
    var p: nat

    ghost predicate Valid()
      reads this
    {
      p <= |text|
    }

    ghost function Rest(): string
      reads this
      requires Valid()
    {
      text[p..]
    }

    constructor (text: string)
      ensures Valid() && this.text == text && Rest() == text
    {
      this.text, p := text, 0;
    }

    method SkipWs()
      requires Valid()
      modifies this
      ensures Valid() && old(p) <= p && Rest() == SkipBlanks(old(Rest()))
      ensures p < |text| ==> Rest()[0] == text[p] && Rest()[1..] == text[p + 1..]
    {
      while p < |text|
        invariant Valid() && old(p) <= p && SkipBlanks(Rest()) == SkipBlanks(old(Rest()))
      {
        RestAt(text, p);
        if !IsBlank(text[p]) { break; }
        p := p + 1;
      }
      if p < |text| { RestAt(text, p); }
    }

    /** A string; at most outSize - 1 characters of it are kept, none if it is to be discarded. */
    method ScanText(outSize: nat) returns (ok: bool, out: string)
      requires Valid()
      modifies this
      ensures Valid() && old(p) <= p
      ensures ok <==> ScanString(old(Rest())).Good?
      ensures ok ==> old(p) < p && Rest() == ScanString(old(Rest())).rest
      ensures ok && outSize > 0 ==> out == Clip(ScanString(old(Rest())).value, outSize)
    {
      hide SkipBlanks, Body, Clip, Loose, HeardSoFar;
      out := "";
      SkipWs();
      if p == |text| || text[p] != '"' { return false, out; }
      p := p + 1;
      ghost var from, heard: string := text[p..], "";
      NothingHeard(from);
      if outSize > 0 { assert Clip("", outSize) == "" by { ClipNothing(outSize); } }
      var n := 0;
      while p < |text|
        invariant Valid() && old(p) < p && n == |heard| && HeardSoFar(from, heard, text[p..])
        invariant outSize > 0 ==> out == Clip(heard, outSize)
        decreases |text| - p
      {
        HearOne(from, heard, text, p);
        var c := text[p];
        p := p + 1;
        if c == '"' { return true, out; }
        if c == '\\' {
          if p == |text| { break; }
          c := Loose(text[p]);
          p := p + 1;
        }
        if outSize > 0 { KeepOne(heard, c, outSize); }
        if n + 1 < outSize { out := out + [c]; }
        n, heard := n + 1, heard + [c];
      }
      assert Body(from).Bad? by { if p == |text| && HeardSoFar(from, heard, text[p..]) { HearOne(from, heard, text, p); } }
      ok := false;
    }

    // ----------------------------------------------------------------
    // Passing over a value
    // ----------------------------------------------------------------

    method SkipLiteralHere() returns (ok: bool)
      requires Valid()
      modifies this
      ensures Valid() && old(p) <= p
      ensures ok <==> SkipLiteral(old(Rest())).At?
      ensures ok ==> Rest() == SkipLiteral(old(Rest())).rest
    {
      hide SkipBlanks;
      SkipWs();
      if p == |text| { return false; }
      ghost var from := Rest();
      while p < |text|
        invariant Valid() && old(p) <= p && LiteralRest(Rest()) == LiteralRest(from)
      {
        RestAt(text, p);
        if EndsLiteral(text[p]) { break; }
        p := p + 1;
      }
      ok := true;
    }

    /** An opening bracket, and whether it is closed at once. */
    method EnterHere(open: char, close: char) returns (ok: bool, hollow: bool)
      requires Valid()
      modifies this
      ensures Valid() && old(p) <= p
      ensures ok <==> !Open(old(Rest()), open, close).NotOpen?
      ensures ok ==> old(p) < p && Rest() == Open(old(Rest()), open, close).rest
      ensures ok ==> hollow == Open(old(Rest()), open, close).Hollow?
    {
      hide SkipBlanks;
      SkipWs();
      if p == |text| || text[p] != open { return false, false; }
      p := p + 1;
      SkipWs();
      ok, hollow := true, false;
      if p < |text| && text[p] == close {
        p, hollow := p + 1, true;
      }
    }

    /** After a member or an element: a comma, the closing bracket, or neither. */
    method Follow(close: char) returns (ok: bool, more: bool)
      requires Valid()
      modifies this
      ensures Valid() && old(p) <= p
      ensures ok <==> !Then(old(Rest()), close).Neither?
      ensures ok ==> old(p) < p && Rest() == Then(old(Rest()), close).rest
      ensures ok ==> more == Then(old(Rest()), close).Comma?
    {
      hide SkipBlanks;
      SkipWs();
      if p < |text| && text[p] == ',' {
        p := p + 1;
        return true, true;
      }
      if p < |text| && text[p] == close {
        p := p + 1;
        return true, false;
      }
      ok, more := false, false;
    }

    method ReadKey(outSize: nat) returns (ok: bool, key: string)
      requires Valid()
      modifies this
      ensures Valid() && old(p) <= p
      ensures ok <==> Key(old(Rest())).Good?
      ensures ok ==> old(p) < p && Rest() == Key(old(Rest())).rest
      ensures ok && outSize > 0 ==> key == Clip(Key(old(Rest())).value, outSize)
    {
      hide SkipBlanks, ScanString, Clip;
      ok, key := ScanText(outSize);
      if !ok { return; }
      SkipWs();
      if p == |text| || text[p] != ':' { return false, key; }
      p := p + 1;
    }

    method SkipValueHere() returns (ok: bool)
      requires Valid()
      modifies this
      ensures Valid() && old(p) <= p
      ensures ok <==> SkipValue(old(Rest())).At?
      ensures ok ==> Rest() == SkipValue(old(Rest())).rest
      decreases |text| - p, 1
    {
      hide SkipBlanks, Body, SkipObject, SkipArray, SkipLiteral;
      SkipWs();
      if p == |text| { return false; }
      NoBlank(text[p..]);
      if text[p] == '"' {
        var out;
        ok, out := ScanText(0);
      } else if text[p] == '{' {
        ok := SkipObjectHere();
      } else if text[p] == '[' {
        ok := SkipArrayHere();
      } else {
        ok := SkipLiteralHere();
      }
    }

    method SkipObjectHere() returns (ok: bool)
      requires Valid()
      modifies this
      ensures Valid() && old(p) <= p
      ensures ok <==> SkipObject(old(Rest())).At?
      ensures ok ==> Rest() == SkipObject(old(Rest())).rest
      decreases |text| - p, 0
    {
      hide Open, Then, Key, SkipValue;
      var hollow;
      ok, hollow := EnterHere('{', '}');
      if !ok || hollow { return; }
      ghost var from := Rest();
      while true
        invariant Valid() && old(p) < p && SkipMembers(from) == SkipMembers(Rest())
        decreases |text| - p
      {
        var key, more;
        ok, key := ReadKey(0);
        if !ok { return; }
        ok := SkipValueHere();
        if !ok { return; }
        ok, more := Follow('}');
        if !ok || !more { return; }
      }
    }

    method SkipArrayHere() returns (ok: bool)
      requires Valid()
      modifies this
      ensures Valid() && old(p) <= p
      ensures ok <==> SkipArray(old(Rest())).At?
      ensures ok ==> Rest() == SkipArray(old(Rest())).rest
      decreases |text| - p, 0
    {
      hide Open, Then, SkipValue;
      var hollow;
      ok, hollow := EnterHere('[', ']');
      if !ok || hollow { return; }
      ghost var from := Rest();
      while true
        invariant Valid() && old(p) < p && SkipElements(from) == SkipElements(Rest())
        decreases |text| - p
      {
        ok := SkipValueHere();
        if !ok { return; }
        var more;
        ok, more := Follow(']');
        if !ok || !more { return; }
      }
    }

    // ----------------------------------------------------------------
    // The catalogue
    // ----------------------------------------------------------------

    method ParseOptionHere() returns (ok: bool, o: Flagged)
      requires Valid()
      modifies this
      ensures Valid() && old(p) <= p
      ensures ok <==> ParseOption(old(Rest())).Good?
      ensures ok ==> Good(o, Rest()) == ParseOption(old(Rest()))
    {
      hide Open, Then, Key, SkipValue, ScanString, Clip;
      var hollow;
      o := Flagged("", false);
      ok, hollow := EnterHere('{', '}');
      if !ok || hollow { return; }
      ghost var from := Rest();
      while true
        invariant Valid() && old(p) < p && OptionMembers(from, Flagged("", false)) == OptionMembers(Rest(), o)
        decreases |text| - p
      {
        var key, more;
        ok, key := ReadKey(32);
        if !ok { return; }
        if key == "flag" {
          var flag;
          ok, flag := ScanText(32);
          if !ok { return; }
          o := o.(flag := flag);
        } else {
          ok := SkipValueHere();
          if !ok { return; }
          if key == "arg" { o := o.(hasArg := true); }
        }
        ok, more := Follow('}');
        if !ok || !more { return; }
      }
    }

    method ParseOptionsHere(kept: seq<Flagged>) returns (ok: bool, os: seq<Flagged>)
      requires Valid()
      modifies this
      ensures Valid() && old(p) <= p
      ensures ok <==> ParseOptions(old(Rest()), kept).Good?
      ensures ok ==> Good(os, Rest()) == ParseOptions(old(Rest()), kept)
    {
      hide Open, Then, SkipValue, ParseOption;
      var hollow;
      os := kept;
      ok, hollow := EnterHere('[', ']');
      if !ok || hollow { return; }
      ghost var from := Rest();
      while true
        invariant Valid() && old(p) < p && OptionElements(from, kept) == OptionElements(Rest(), os)
        decreases |text| - p
      {
        if |os| < MAX_OPTIONS {
          var o;
          ok, o := ParseOptionHere();
          if !ok { return; }
          os := os + [o];
        } else {
          ok := SkipValueHere();
          if !ok { return; }
        }
        var more;
        ok, more := Follow(']');
        if !ok || !more { return; }
      }
    }

    /** One field of an entry, by its key. */
    method EntryMemberHere(e: Entry, key: string) returns (ok: bool, r: Entry)
      requires Valid()
      modifies this
      ensures Valid() && old(p) <= p
      ensures ok <==> EntryMember(e, key, old(Rest())).Good?
      ensures ok ==> Good(r, Rest()) == EntryMember(e, key, old(Rest()))
    {
      hide SkipValue, ScanString, Clip, SkipBlanks, ParseOptions;
      r := e;
      if key == "kind" {
        var kind;
        ok, kind := ScanText(32);
        r := e.(builtin := kind == "shell-builtin");
      } else if key == "shell_modern" {
        var shell;
        ok, shell := ScanText(128);
        r := e.(modern := shell);
      } else if key == "shell_win32s" {
        var shell;
        ok, shell := ScanText(128);
        r := e.(old16 := shell);
      } else if key == "supports_win32s" {
        SkipWs();
        if p < |text| {
          NoBlank(text[p..]);
          if text[p] == 't' { r := e.(win32s := true); }
        }
        EmptyLiteral();
        ok := SkipLiteralHere();
      } else if key == "options" {
        var os;
        ok, os := ParseOptionsHere(e.options);
        r := e.(options := os);
      } else {
        ok := SkipValueHere();
      }
    }

    method ParseEntryHere(name: string) returns (ok: bool, e: Entry)
      requires Valid()
      modifies this
      ensures Valid() && old(p) <= p
      ensures ok <==> ParseEntry(old(Rest()), name).Good?
      ensures ok ==> Good(e, Rest()) == ParseEntry(old(Rest()), name)
    {
      hide Open, Then, Key, EntryMember, Clip;
      var hollow;
      e := NewEntry(name);
      ok, hollow := EnterHere('{', '}');
      if !ok || hollow { return; }
      ghost var from := Rest();
      while true
        invariant Valid() && old(p) < p && EntryMembers(from, NewEntry(name)) == EntryMembers(Rest(), e)
        decreases |text| - p
      {
        var key, more;
        ok, key := ReadKey(32);
        if !ok { return; }
        ok, e := EntryMemberHere(e, key);
        if !ok { return; }
        ok, more := Follow('}');
        if !ok || !more { return; }
      }
    }

    method ParseCommandsHere(kept: seq<Entry>) returns (ok: bool, es: seq<Entry>)
      requires Valid()
      modifies this
      ensures Valid() && old(p) <= p
      ensures ok <==> ParseCommands(old(Rest()), kept).Good?
      ensures ok ==> Good(es, Rest()) == ParseCommands(old(Rest()), kept)
    {
      hide Open, Then, Key, ParseEntry, Clip;
      var hollow;
      es := kept;
      ok, hollow := EnterHere('{', '}');
      if !ok || hollow { return; }
      ghost var from := Rest();
      while true
        invariant Valid() && old(p) < p && Commands(from, kept) == Commands(Rest(), es)
        decreases |text| - p
      {
        var name, more, e;
        ok, name := ReadKey(64);
        if !ok { return; }
        if |es| >= MAX_ENTRIES { return false, es; }
        ok, e := ParseEntryHere(name);
        if !ok { return; }
        es := es + [e];
        ok, more := Follow('}');
        if !ok || !more { return; }
      }
    }

    method ParseTopHere() returns (ok: bool, es: seq<Entry>)
      requires Valid()
      modifies this
      ensures Valid()
      ensures ok <==> ParseTop(old(Rest())).Good?
      ensures ok ==> es == ParseTop(old(Rest())).value
    {
      hide Open, Then, Key, ParseCommands, SkipValue, Clip;
      var hollow;
      es := [];
      ok, hollow := EnterHere('{', '}');
      if !ok || hollow { return; }
      ghost var from := Rest();
      while true
        invariant Valid() && old(p) < p && TopMembers(from, []) == TopMembers(Rest(), es)
        decreases |text| - p
      {
        var key, more;
        ok, key := ReadKey(32);
        if !ok { return; }
        if key == "commands" {
          ok, es := ParseCommandsHere(es);
        } else {
          ok := SkipValueHere();
        }
        if !ok { return; }
        ok, more := Follow('}');
        if !ok || !more { return; }
      }
    }
  }

  lemma NoBlank(s: string)
    ensures |s| > 0 && !IsBlank(s[0]) ==> SkipBlanks(s) == s
    ensures SkipBlanks(SkipBlanks(s)) == SkipBlanks(s)
  {}

  lemma EmptyLiteral()
    ensures forall s :: SkipLiteral(SkipBlanks(s)) == SkipLiteral(s)
  {
    forall s ensures SkipLiteral(SkipBlanks(s)) == SkipLiteral(s) { NoBlank(s); }
  }

  lemma ClipNothing(size: nat)
    ensures Clip("", size) == ""
  {}

  /** Loading a catalogue from the text of its file; one without entries is refused. */
  method CatalogLoad(text: string) returns (ok: bool, es: seq<Entry>)
    ensures ok <==> Load(text).Good?
    ensures ok ==> es == Load(text).value
  {
    hide ParseTop;
    var s := new Scanner(text);
    ok, es := s.ParseTopHere();
    if ok && |es| == 0 { ok := false; }
  }
}
