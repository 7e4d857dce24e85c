/**
  CatalogLookup, findOption and CatalogValidateArgs of src/catalog.c. Names are
  compared without regard to the case of the letters A to Z.
 */
module CatalogArgs {
  import opened JsonCommand
  import opened CatalogGrammar

  function Lower(c: char): char { if 'A' <= c <= 'Z' then c - 'A' + 'a' else c }

  predicate SameName(a: string, b: string) { |a| == |b| && forall i :: 0 <= i < |a| ==> Lower(a[i]) == Lower(b[i]) }

  predicate IsFlag(tok: string) { |tok| > 0 && (tok[0] == '/' || tok[0] == '-') }

  /** Names are the same if they differ at most in the case of letters: 32 apart, among A to Z and a to z. */
  lemma NamesAgree(a: string, b: string)
    ensures SameName(a, b) <==>
              |a| == |b| && forall i :: 0 <= i < |a| ==>
                var (x, y) := (a[i] as int, b[i] as int); x == y || (65 <= x <= 90 && y == x + 32) || (65 <= y <= 90 && x == y + 32)
  {
    if |a| == |b| {
      forall i | 0 <= i < |a|
        ensures Lower(a[i]) == Lower(b[i]) <==>
                  var (x, y) := (a[i] as int, b[i] as int); x == y || (65 <= x <= 90 && y == x + 32) || (65 <= y <= 90 && x == y + 32)
      {}
    }
  }

  /** The token is the option's flag, or the flag with its value glued to it. */
  predicate Matches(o: Flagged, tok: string) {
    SameName(o.flag, tok)
    || (o.hasArg && 0 < |o.flag| < |tok| && SameName(tok[..|o.flag|], o.flag))
  }

  /** A flag is matched in any case; one that takes an argument is also matched with any value glued to it, and no other is. */
  lemma GluedValues(o: Flagged, flag: string, value: string)
    requires SameName(flag, o.flag) && |flag| > 0
    ensures Matches(o, flag)
    ensures |value| > 0 ==> (Matches(o, flag + value) <==> o.hasArg)
  {
    assert (flag + value)[..|flag|] == flag;
  }

  predicate Allowed(e: Entry, tok: string) { exists i :: 0 <= i < |e.options| && Matches(e.options[i], tok) }

  /** The entry's flags are as long as its table has room for. */
  predicate FlagsFit(e: Entry) { forall i :: 0 <= i < |e.options| ==> |e.options[i].flag| < 32 }

  method CompareNames(a: string, b: string) returns (same: bool)
    ensures same <==> SameName(a, b)
  {
    var i := 0;
    while i < |a| && i < |b| && Lower(a[i]) == Lower(b[i])
      invariant i <= |a| && i <= |b|
      invariant forall k :: 0 <= k < i ==> Lower(a[k]) == Lower(b[k])
    {
      i := i + 1;
    }
    same := i == |a| && i == |b|;
  }

  method CatalogLookup(es: seq<Entry>, name: string) returns (k: int)
    ensures -1 <= k < |es|
    ensures k >= 0 ==> SameName(es[k].name, name) && forall j :: 0 <= j < k ==> !SameName(es[j].name, name)
    ensures k < 0 ==> forall j :: 0 <= j < |es| ==> !SameName(es[j].name, name)
  {
    for i := 0 to |es|
      invariant forall j :: 0 <= j < i ==> !SameName(es[j].name, name)
    {
      var same := CompareNames(es[i].name, name);
      if same { return i; }
    }
    k := -1;
  }

  /** The first option that the token matches; -1 for none. */
  method FindOption(e: Entry, tok: string) returns (k: int)
    requires FlagsFit(e)
    ensures -1 <= k < |e.options|
    ensures k >= 0 ==> Matches(e.options[k], tok) && forall j :: 0 <= j < k ==> !Matches(e.options[j], tok)
    ensures k < 0 <==> !Allowed(e, tok)
  {
    hide SameName;
    for i := 0 to |e.options|
      invariant forall j :: 0 <= j < i ==> !Matches(e.options[j], tok)
    {
      var opt := e.options[i];
      var same := CompareNames(opt.flag, tok);
      if same { return i; }
      if opt.hasArg && |opt.flag| > 0 && |tok| > |opt.flag| {
        var n := if |opt.flag| >= 32 then 31 else |opt.flag|;
        same := CompareNames(tok[..n], opt.flag);
        if same { return i; }
      }
    }
    k := -1;
  }

  /**
    An argument vector is allowed exactly when every token after the name that looks
    like a flag is one of the entry's: that an option takes the next token along
    makes no difference, for it takes it only if it is no flag.
   */
  method CatalogValidateArgs(e: Entry, argv: seq<string>) returns (ok: bool)
    requires FlagsFit(e)
    ensures ok <==> forall i :: 1 <= i < |argv| && IsFlag(argv[i]) ==> Allowed(e, argv[i])
    ensures ok <==> forall i :: 1 <= i < |argv| && |argv[i]| > 0 && argv[i][0] as int in {0x2F, 0x2D} ==> Allowed(e, argv[i])
  {
    hide Matches, Allowed;
    var i := 1;
    while i < |argv|
      invariant 1 <= i
      invariant forall k :: 1 <= k < i && k < |argv| && IsFlag(argv[k]) ==> Allowed(e, argv[k])
    {
      if IsFlag(argv[i]) {
        var k := FindOption(e, argv[i]);
        if k < 0 { return false; }
        var exact := CompareNames(e.options[k].flag, argv[i]);
        if e.options[k].hasArg && exact && i + 1 < |argv| && !IsFlag(argv[i + 1]) { i := i + 1; }
      }
      i := i + 1;
    }
    ok := true;
  }

  // ------------------------------------------------------------------
  // Every entry that is loaded fits
  // ------------------------------------------------------------------

  predicate AllFlagsFit(es: seq<Entry>) { forall i :: 0 <= i < |es| ==> FlagsFit(es[i]) }

  predicate Short(os: seq<Flagged>) { forall i :: 0 <= i < |os| ==> |os[i].flag| < 32 }

  lemma OptionMemberFits(o: Flagged, key: string, s: string)
    requires |o.flag| < 32
    ensures var r := OptionMember(o, key, s); r.Good? ==> |r.value.flag| < 32
  {
    hide ScanString, SkipValue;
  }

  lemma {:induction false} OptionMembersFit(s: string, o: Flagged)
    requires |o.flag| < 32
    ensures var r := OptionMembers(s, o); r.Good? ==> |r.value.flag| < 32
    decreases |s|
  {
    hide Key, OptionMember, Then, Clip;
    if Key(s).Good? {
      var key := Clip(Key(s).value, 32);
      var m := OptionMember(o, key, Key(s).rest);
      OptionMemberFits(o, key, Key(s).rest);
      if m.Good? && Then(m.rest, '}').Comma? { OptionMembersFit(Then(m.rest, '}').rest, m.value); }
    }
  }

  lemma OptionElementFits(s: string, os: seq<Flagged>)
    requires Short(os)
    ensures var r := OptionElement(s, os); r.Good? ==> Short(r.value)
  {
    if Open(s, '{', '}').Inside? { OptionMembersFit(Open(s, '{', '}').rest, Flagged("", false)); }
    hide Open, OptionMembers, SkipValue;
  }

  lemma {:induction false} OptionElementsFit(s: string, os: seq<Flagged>)
    requires Short(os)
    ensures var r := OptionElements(s, os); r.Good? ==> Short(r.value)
    decreases |s|
  {
    hide OptionElement, Then, Short;
    var e := OptionElement(s, os);
    OptionElementFits(s, os);
    if e.Good? && Then(e.rest, ']').Comma? { OptionElementsFit(Then(e.rest, ']').rest, e.value); }
  }

  lemma EntryMemberFits(e: Entry, key: string, s: string)
    requires FlagsFit(e)
    ensures var r := EntryMember(e, key, s); r.Good? ==> FlagsFit(r.value)
  {
    if key == "options" && Open(s, '[', ']').Inside? { OptionElementsFit(Open(s, '[', ']').rest, e.options); }
    hide Open, OptionElements, SkipValue, ScanString, SkipLiteral, SkipBlanks, Clip;
  }

  lemma {:induction false} EntryMembersFit(s: string, e: Entry)
    requires FlagsFit(e)
    ensures var r := EntryMembers(s, e); r.Good? ==> FlagsFit(r.value)
    decreases |s|
  {
    hide Key, EntryMember, Then, Clip, FlagsFit;
    if Key(s).Good? {
      var key := Clip(Key(s).value, 32);
      var m := EntryMember(e, key, Key(s).rest);
      EntryMemberFits(e, key, Key(s).rest);
      if m.Good? && Then(m.rest, '}').Comma? { EntryMembersFit(Then(m.rest, '}').rest, m.value); }
    }
  }

  lemma EntryFits(s: string, name: string)
    ensures var r := ParseEntry(s, name); r.Good? ==> FlagsFit(r.value)
  {
    if Open(s, '{', '}').Inside? { EntryMembersFit(Open(s, '{', '}').rest, NewEntry(name)); }
    hide Open, EntryMembers;
  }

  lemma {:induction false} CommandsFit(s: string, es: seq<Entry>)
    requires AllFlagsFit(es)
    ensures var r := Commands(s, es); r.Good? ==> AllFlagsFit(r.value)
    decreases |s|
  {
    hide Key, ParseEntry, Then, Clip, FlagsFit;
    if Key(s).Good? && |es| < MAX_ENTRIES {
      var name := Clip(Key(s).value, 64);
      var e := ParseEntry(Key(s).rest, name);
      EntryFits(Key(s).rest, name);
      if e.Good? && Then(e.rest, '}').Comma? { CommandsFit(Then(e.rest, '}').rest, es + [e.value]); }
    }
  }

  lemma TopMemberFits(es: seq<Entry>, key: string, s: string)
    requires AllFlagsFit(es)
    ensures var r := TopMember(es, key, s); r.Good? ==> AllFlagsFit(r.value)
  {
    if Open(s, '{', '}').Inside? { CommandsFit(Open(s, '{', '}').rest, es); }
    hide Open, Commands, SkipValue, AllFlagsFit;
  }

  lemma {:induction false} TopMembersFit(s: string, es: seq<Entry>)
    requires AllFlagsFit(es)
    ensures var r := TopMembers(s, es); r.Good? ==> AllFlagsFit(r.value)
    decreases |s|
  {
    hide Key, TopMember, Then, Clip, AllFlagsFit;
    if Key(s).Good? {
      var key := Clip(Key(s).value, 32);
      var m := TopMember(es, key, Key(s).rest);
      TopMemberFits(es, key, Key(s).rest);
      if m.Good? && Then(m.rest, '}').Comma? { TopMembersFit(Then(m.rest, '}').rest, m.value); }
    }
  }

  /** Whatever the text, every entry of a catalogue that loads fits the table, so its arguments can be checked. */
  lemma LoadedFlagsFit(s: string)
    ensures Load(s).Good? ==> AllFlagsFit(Load(s).value)
  {
    if Open(s, '{', '}').Inside? { TopMembersFit(Open(s, '{', '}').rest, []); }
    hide Open, TopMembers, FlagsFit;
  }
}
