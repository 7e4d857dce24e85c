/**
  Printed catalogues: what a JSON tree says as a catalogue, that parsing its text
  finds just that, and that the tree of a catalogue says the catalogue.
 */
module CatalogRoundTrip {
  import opened JsonText
  import opened JsonCommand
  import opened CatalogGrammar
  import opened CatalogLaws

  // ------------------------------------------------------------------
  // What a tree says
  // ------------------------------------------------------------------

  function KeyOf(key: string): string { Clip(Heard(key), 32) }

  function Field(v: Json, size: nat): string { if v.Quoted? then Clip(Heard(v.s), size) else "" }

  function OptionField(o: Flagged, key: string, v: Json): Flagged {
    if key == "flag" then o.(flag := Field(v, 32)) else if key == "arg" then o.(hasArg := true) else o
  }

  function OptionSays(o: Flagged, ms: Members): Flagged
    decreases ms
  {
    match ms
    case NoMembers => o
    case Member(key, v, more) => OptionSays(OptionField(o, KeyOf(key), v), more)
  }

  function OptionsSay(os: seq<Flagged>, items: Items): seq<Flagged>
    decreases items
  {
    match items
    case NoItems => os
    case Item(v, more) =>
      OptionsSay(if |os| < MAX_OPTIONS && v.Object? then os + [OptionSays(Flagged("", false), v.members)] else os, more)
  }

  /** The fields of an entry that are kept. */
  datatype Slot = Kind | Modern | Old16 | Supports | Options | Unknown

  function SlotOf(key: string): Slot {
    if key == "kind" then Kind
    else if key == "shell_modern" then Modern
    else if key == "shell_win32s" then Old16
    else if key == "supports_win32s" then Supports
    else if key == "options" then Options
    else Unknown
  }

  predicate SaysBuiltin(kind: string) { kind == "shell-builtin" }

  function EntryField(e: Entry, slot: Slot, v: Json): Entry {
    match slot
    case Kind => e.(builtin := SaysBuiltin(Field(v, 32)))
    case Modern => e.(modern := Field(v, 128))
    case Old16 => e.(old16 := Field(v, 128))
    case Supports => if v.Word? && |v.w| > 0 && v.w[0] == 't' then e.(win32s := true) else e
    case Options => if v.Array? then e.(options := OptionsSay(e.options, v.items)) else e
    case Unknown => e
  }

  function EntrySays(e: Entry, ms: Members): Entry
    decreases ms
  {
    match ms
    case NoMembers => e
    case Member(key, v, more) => EntrySays(EntryField(e, SlotOf(KeyOf(key)), v), more)
  }

  function CommandsSay(es: seq<Entry>, ms: Members): seq<Entry>
    decreases ms
  {
    match ms
    case NoMembers => es
    case Member(key, v, more) =>
      CommandsSay(if v.Object? then es + [EntrySays(NewEntry(Clip(Heard(key), 64)), v.members)] else es, more)
  }

  function TopField(es: seq<Entry>, key: string, v: Json): seq<Entry> {
    if key == "commands" && v.Object? then CommandsSay(es, v.members) else es
  }

  function TopSays(es: seq<Entry>, ms: Members): seq<Entry>
    decreases ms
  {
    match ms
    case NoMembers => es
    case Member(key, v, more) => TopSays(TopField(es, KeyOf(key), v), more)
  }

  // ------------------------------------------------------------------
  // Trees that the parser takes
  // ------------------------------------------------------------------

  predicate OptionShaped(ms: Members) {
    ms.Member? ==> Words(ms.value) && (KeyOf(ms.key) == "flag" ==> ms.value.Quoted?) && OptionShaped(ms.more)
  }

  /** The elements that are stored are options; those past the limit may be anything. */
  predicate OptionsShaped(n: nat, items: Items)
    decreases items
  {
    items.Item? ==>
      && Words(items.value)
      && (n < MAX_OPTIONS ==> items.value.Object? && OptionShaped(items.value.members))
      && OptionsShaped(if n < MAX_OPTIONS then n + 1 else n, items.more)
  }

  predicate FieldShaped(e: Entry, slot: Slot, v: Json) {
    && Words(v)
    && match slot
       case Unknown => true
       case Supports => v.Word?
       case Options => v.Array? && OptionsShaped(|e.options|, v.items)
       case _ => v.Quoted?
  }

  predicate EntryShaped(e: Entry, ms: Members)
    decreases ms
  {
    ms.Member? ==>
      && FieldShaped(e, SlotOf(KeyOf(ms.key)), ms.value)
      && EntryShaped(EntryField(e, SlotOf(KeyOf(ms.key)), ms.value), ms.more)
  }

  /** Every command is an entry, and there are no more than the table holds. */
  predicate CommandsShaped(n: nat, ms: Members)
    decreases ms
  {
    ms.Member? ==>
      && n < MAX_ENTRIES && ms.value.Object?
      && EntryShaped(NewEntry(Clip(Heard(ms.key), 64)), ms.value.members)
      && CommandsShaped(n + 1, ms.more)
  }

  predicate TopShaped(es: seq<Entry>, ms: Members)
    decreases ms
  {
    ms.Member? ==>
      && Words(ms.value)
      && (KeyOf(ms.key) == "commands" ==> ms.value.Object? && CommandsShaped(|es|, ms.value.members))
      && TopShaped(TopField(es, KeyOf(ms.key), ms.value), ms.more)
  }

  // ------------------------------------------------------------------
  // Parsing a printed tree
  // ------------------------------------------------------------------

  lemma QuotedIsScanned(v: Json, g: Layout, b: Gap, rest: string)
    requires v.Quoted?
    ensures ScanString(b + (PrintJson(v, g) + rest)) == Good(Heard(v.s), rest)
  {
    hide ScanString, EscapeText, Heard;
    BlanksBeforeString(b, PrintJson(v, g) + rest);
    StringIsScanned(v.s, rest);
  }

  lemma LaidValueIsPassed(v: Json, g: Layout, b: Gap, rest: string)
    requires Words(v) && Delimits(rest)
    ensures SkipValue(b + (PrintJson(v, g) + rest)) == At(rest)
  {
    BlanksBeforeValue(b, PrintJson(v, g) + rest);
    ValueIsPassed(v, g, rest);
  }

  lemma OptionMemberIsRead(o: Flagged, key: string, v: Json, g: Layout, b: Gap, rest: string)
    requires Words(v) && (key == "flag" ==> v.Quoted?) && Delimits(rest)
    ensures OptionMember(o, key, b + (PrintJson(v, g) + rest)) == Good(OptionField(o, key, v), rest)
  {
    hide ScanString, SkipValue, PrintJson, Heard, Clip;
    if key == "flag" { QuotedIsScanned(v, g, b, rest); } else { LaidValueIsPassed(v, g, b, rest); }
  }

  lemma BlanksBeforeOptionMembers(b: Gap, s: string, o: Flagged)
    ensures OptionMembers(b + s, o) == OptionMembers(s, o)
  {
    BlanksBeforeKey(b, s);
    hide Key, Then, OptionMember;
  }

  lemma {:induction false} OptionMembersAreRead(o: Flagged, ms: Members, g: Layout, rest: string)
    requires ms.Member? && OptionShaped(ms)
    ensures OptionMembers(PrintMembers(ms, g) + "}" + rest, o) == Good(OptionSays(o, ms), rest)
    decreases ms
  {
    hide PrintMembers, PrintJson, Key, Then, OptionMember, OptionField, Clip, Heard, Words, AfterMember, Laid;
    var l := Laid(g);
    MemberSplits(ms, g, rest);
    OptionMemberIsRead(o, KeyOf(ms.key), ms.value, l.inner, l.value, AfterMember(ms, g, rest));
    if ms.more.Member? { OptionMembersAreRead(OptionField(o, KeyOf(ms.key), ms.value), ms.more, l.next, rest); }
  }

  lemma OptionIsRead(ms: Members, g: Layout, b: Gap, rest: string)
    requires OptionShaped(ms)
    ensures ParseOption(b + (PrintJson(Object(ms), g) + rest)) == Good(OptionSays(Flagged("", false), ms), rest)
  {
    hide PrintMembers, PrintJson, Open, OptionMembers, OptionShaped, Laid;
    BlanksBeforeOpen(b, PrintJson(Object(ms), g) + rest, '{', '}');
    var t := ObjectOpens(ms, g, rest);
    BlanksBeforeOptionMembers(Laid(g).before, t, Flagged("", false));
    if ms.Member? { OptionMembersAreRead(Flagged("", false), ms, g, rest); }
  }

  lemma OptionElementIsRead(os: seq<Flagged>, v: Json, g: Layout, b: Gap, rest: string)
    requires Words(v) && Delimits(rest)
    requires |os| < MAX_OPTIONS ==> v.Object? && OptionShaped(v.members)
    ensures OptionElement(b + (PrintJson(v, g) + rest), os)
            == Good(if |os| < MAX_OPTIONS && v.Object? then os + [OptionSays(Flagged("", false), v.members)] else os, rest)
  {
    hide PrintJson, ParseOption, SkipValue, OptionSays, OptionShaped, Words;
    if |os| < MAX_OPTIONS { OptionIsRead(v.members, g, b, rest); } else { LaidValueIsPassed(v, g, b, rest); }
  }

  lemma OptionsAreWords(n: nat, items: Items)
    requires OptionsShaped(n, items)
    ensures ItemWords(items)
    decreases items
  {
    if items.Item? { OptionsAreWords(if n < MAX_OPTIONS then n + 1 else n, items.more); }
  }

  lemma BlanksBeforeOptionElements(b: Gap, s: string, os: seq<Flagged>)
    ensures OptionElements(b + s, os) == OptionElements(s, os)
  {
    BlanksBeforeOpen(b, s, '{', '}');
    BlanksBeforeValue(b, s);
    hide Open, SkipValue, Then, OptionMembers;
  }

  lemma {:induction false} OptionElementsAreRead(os: seq<Flagged>, items: Items, g: Layout, rest: string)
    requires items.Item? && OptionsShaped(|os|, items)
    ensures OptionElements(PrintElements(items, g) + "]" + rest, os) == Good(OptionsSay(os, items), rest)
    decreases items
  {
    hide PrintJson, PrintElements, Then, OptionElement, OptionSays, OptionShaped, Words, Laid, AfterItem;
    var l := Laid(g);
    ItemSplits(items, g, rest);
    OptionElementIsRead(os, items.value, l.inner, l.before, AfterItem(items, g, rest));
    if items.more.Item? {
      var os' := if |os| < MAX_OPTIONS && items.value.Object?
        then os + [OptionSays(Flagged("", false), items.value.members)] else os;
      OptionElementsAreRead(os', items.more, l.next, rest);
    }
  }

  lemma OptionsAreRead(os: seq<Flagged>, items: Items, g: Layout, b: Gap, rest: string)
    requires OptionsShaped(|os|, items)
    ensures ParseOptions(b + (PrintJson(Array(items), g) + rest), os) == Good(OptionsSay(os, items), rest)
  {
    OptionsAreWords(|os|, items);
    hide PrintJson, PrintElements, Open, OptionElements, OptionsShaped, Laid;
    BlanksBeforeOpen(b, PrintJson(Array(items), g) + rest, '[', ']');
    var t := ArrayOpens(items, g, rest);
    BlanksBeforeOptionElements(Laid(g).before, t, os);
    if items.Item? { OptionElementsAreRead(os, items, g, rest); }
  }

  lemma LiteralIsRead(w: string, b: Gap, rest: string)
    requires IsWord(w) && Delimits(rest)
    ensures var s := b + (w + rest);
            SkipLiteral(s) == At(rest) && SkipBlanks(s) == w + rest && (w + rest)[0] == w[0]
  {
    BlanksBeforeLiteral(b, w + rest);
    BlanksAreSkipped(b, w + rest);
    WordIsPassed(w, rest);
    NotBlank(w + rest);
    hide LiteralRest, SkipBlanks;
  }

  lemma EntryMemberIsRead(e: Entry, key: string, v: Json, g: Layout, b: Gap, rest: string)
    requires FieldShaped(e, SlotOf(key), v) && Delimits(rest)
    ensures EntryMember(e, key, b + (PrintJson(v, g) + rest)) == Good(EntryField(e, SlotOf(key), v), rest)
  {
    match SlotOf(key)
    case Unknown =>
      LaidValueIsPassed(v, g, b, rest);
      hide PrintJson, SkipValue, ParseOptions, ScanString, Words, OptionsShaped;
    case Supports =>
      LiteralIsRead(v.w, b, rest);
      hide ScanString, SkipValue, ParseOptions, SkipLiteral, SkipBlanks;
    case Options =>
      OptionsAreRead(e.options, v.items, g, b, rest);
      hide PrintJson, ParseOptions, SkipValue, ScanString, Words, OptionsShaped;
    case _ =>
      QuotedIsScanned(v, g, b, rest);
      hide PrintJson, ScanString, Clip, Heard, Words, SkipValue, ParseOptions;
  }

  lemma BlanksBeforeEntryMembers(b: Gap, s: string, e: Entry)
    ensures EntryMembers(b + s, e) == EntryMembers(s, e)
  {
    BlanksBeforeKey(b, s);
    hide Key, Then, EntryMember;
  }

  lemma {:induction false} EntryMembersAreRead(e: Entry, ms: Members, g: Layout, rest: string)
    requires ms.Member? && EntryShaped(e, ms)
    ensures EntryMembers(PrintMembers(ms, g) + "}" + rest, e) == Good(EntrySays(e, ms), rest)
    decreases ms
  {
    hide PrintMembers, PrintJson, Key, Then, EntryMember, EntryField, FieldShaped, Clip, Heard, AfterMember, SlotOf, Laid;
    var l := Laid(g);
    MemberSplits(ms, g, rest);
    EntryMemberIsRead(e, KeyOf(ms.key), ms.value, l.inner, l.value, AfterMember(ms, g, rest));
    if ms.more.Member? { EntryMembersAreRead(EntryField(e, SlotOf(KeyOf(ms.key)), ms.value), ms.more, l.next, rest); }
  }

  lemma EntryIsRead(name: string, ms: Members, g: Layout, b: Gap, rest: string)
    requires EntryShaped(NewEntry(name), ms)
    ensures ParseEntry(b + (PrintJson(Object(ms), g) + rest), name) == Good(EntrySays(NewEntry(name), ms), rest)
  {
    hide PrintMembers, PrintJson, Open, EntryMembers, EntryShaped, Laid;
    BlanksBeforeOpen(b, PrintJson(Object(ms), g) + rest, '{', '}');
    var t := ObjectOpens(ms, g, rest);
    BlanksBeforeEntryMembers(Laid(g).before, t, NewEntry(name));
    if ms.Member? { EntryMembersAreRead(NewEntry(name), ms, g, rest); }
  }

  lemma BlanksBeforeCommands(b: Gap, s: string, es: seq<Entry>)
    ensures Commands(b + s, es) == Commands(s, es)
  {
    BlanksBeforeKey(b, s);
    hide Key, Then, ParseEntry;
  }

  lemma {:induction false} CommandsAreRead(es: seq<Entry>, ms: Members, g: Layout, rest: string)
    requires ms.Member? && CommandsShaped(|es|, ms)
    ensures Commands(PrintMembers(ms, g) + "}" + rest, es) == Good(CommandsSay(es, ms), rest)
    decreases ms
  {
    hide PrintMembers, PrintJson, Key, Then, ParseEntry, EntrySays, EntryShaped, Clip, Heard, AfterMember, Laid;
    var l, name := Laid(g), Clip(Heard(ms.key), 64);
    MemberSplits(ms, g, rest);
    EntryIsRead(name, ms.value.members, l.inner, l.value, AfterMember(ms, g, rest));
    if ms.more.Member? { CommandsAreRead(es + [EntrySays(NewEntry(name), ms.value.members)], ms.more, l.next, rest); }
  }

  lemma CommandsOpen(es: seq<Entry>, ms: Members, g: Layout, b: Gap, rest: string)
    requires CommandsShaped(|es|, ms)
    ensures ParseCommands(b + (PrintJson(Object(ms), g) + rest), es) == Good(CommandsSay(es, ms), rest)
  {
    hide PrintMembers, PrintJson, Open, Commands, CommandsShaped, Laid;
    BlanksBeforeOpen(b, PrintJson(Object(ms), g) + rest, '{', '}');
    var t := ObjectOpens(ms, g, rest);
    BlanksBeforeCommands(Laid(g).before, t, es);
    if ms.Member? { CommandsAreRead(es, ms, g, rest); }
  }

  lemma TopMemberIsRead(es: seq<Entry>, key: string, v: Json, g: Layout, b: Gap, rest: string)
    requires Words(v) && Delimits(rest) && (key == "commands" ==> v.Object? && CommandsShaped(|es|, v.members))
    ensures TopMember(es, key, b + (PrintJson(v, g) + rest)) == Good(TopField(es, key, v), rest)
  {
    hide PrintJson, SkipValue, ParseCommands, Words, CommandsShaped, CommandsSay;
    if key == "commands" { CommandsOpen(es, v.members, g, b, rest); } else { LaidValueIsPassed(v, g, b, rest); }
  }

  lemma BlanksBeforeTopMembers(b: Gap, s: string, es: seq<Entry>)
    ensures TopMembers(b + s, es) == TopMembers(s, es)
  {
    BlanksBeforeKey(b, s);
    hide Key, Then, TopMember;
  }

  lemma {:induction false} TopMembersAreRead(es: seq<Entry>, ms: Members, g: Layout, rest: string)
    requires ms.Member? && TopShaped(es, ms)
    ensures TopMembers(PrintMembers(ms, g) + "}" + rest, es) == Good(TopSays(es, ms), rest)
    decreases ms
  {
    hide PrintMembers, PrintJson, Key, Then, TopMember, TopField, Clip, Heard, AfterMember, Words, CommandsShaped, Laid;
    var l := Laid(g);
    MemberSplits(ms, g, rest);
    TopMemberIsRead(es, KeyOf(ms.key), ms.value, l.inner, l.value, AfterMember(ms, g, rest));
    if ms.more.Member? { TopMembersAreRead(TopField(es, KeyOf(ms.key), ms.value), ms.more, l.next, rest); }
  }

  /** Parsing a document of the right shape, printed in any layout, finds what its tree says. */
  lemma DocumentIsRead(ms: Members, g: Layout, b: Gap, rest: string)
    requires TopShaped([], ms)
    ensures ParseTop(b + (PrintJson(Object(ms), g) + rest)) == Good(TopSays([], ms), rest)
  {
    hide PrintMembers, PrintJson, Open, TopMembers, TopShaped, Laid;
    BlanksBeforeOpen(b, PrintJson(Object(ms), g) + rest, '{', '}');
    var t := ObjectOpens(ms, g, rest);
    BlanksBeforeTopMembers(Laid(g).before, t, []);
    if ms.Member? { TopMembersAreRead([], ms, g, rest); }
  }

  // ------------------------------------------------------------------
  // The tree of a catalogue
  // ------------------------------------------------------------------

  const KIND := "kind"
  const SUPPORTS := "supports_win32s"
  const MODERN := "shell_modern"
  const OLD16 := "shell_win32s"
  const OPTIONS := "options"
  const FLAG := "flag"
  const ARG := "arg"
  const VERSION := "version"
  const COMMANDS := "commands"

  function OptionTree(o: Flagged): Members {
    Member(FLAG, Quoted(o.flag), if o.hasArg then Member(ARG, Quoted("value"), NoMembers) else NoMembers)
  }

  function OptionsTree(os: seq<Flagged>): Items {
    if |os| == 0 then NoItems else Item(Object(OptionTree(os[0])), OptionsTree(os[1..]))
  }

  function EntryTree(e: Entry): Members {
    Member(KIND, Quoted(KindName(e.builtin)),
    Member(SUPPORTS, Word(if e.win32s then "true" else "false"),
    Member(MODERN, Quoted(e.modern),
    Member(OLD16, Quoted(e.old16),
    Member(OPTIONS, Array(OptionsTree(e.options)), NoMembers)))))
  }

  function CommandsTree(es: seq<Entry>): Members {
    if |es| == 0 then NoMembers else Member(es[0].name, Object(EntryTree(es[0])), CommandsTree(es[1..]))
  }

  function Document(es: seq<Entry>): Members {
    Member(VERSION, Word("1"), Member(COMMANDS, Object(CommandsTree(es)), NoMembers))
  }

  predicate Holds(s: string, size: nat) { Clean(s) && |s| < size }

  /** What the table has room for. */
  predicate HoldsEntry(e: Entry) {
    && Holds(e.name, 64) && Holds(e.modern, 128) && Holds(e.old16, 128) && |e.options| <= 16
    && forall i :: 0 <= i < |e.options| ==> Holds(e.options[i].flag, 32)
  }

  lemma HeldIsKept(s: string, size: nat)
    requires Holds(s, size)
    ensures Clip(Heard(s), size) == s && Field(Quoted(s), size) == s
  {
    HeardIsExact(s);
  }

  lemma KeyIsKept(key: string)
    requires Holds(key, 32)
    ensures KeyOf(key) == key
  {
    HeldIsKept(key, 32);
    hide Heard, Clip;
  }

  lemma FlagIsField(o: Flagged, s: string)
    requires Holds(s, 32)
    ensures OptionField(o, KeyOf(FLAG), Quoted(s)) == o.(flag := s)
  {
    KeyIsKept(FLAG);
    HeldIsKept(s, 32);
    hide KeyOf, Field;
  }

  lemma ArgIsField(o: Flagged, v: Json)
    ensures OptionField(o, KeyOf(ARG), v) == o.(hasArg := true) && KeyOf(ARG) != "flag"
  {
    KeyIsKept(ARG);
    assert "arg" != "flag" by { assert |"arg"| == 3; }
    hide KeyOf, Field;
  }

  lemma OptionStep(o: Flagged, ms: Members)
    requires ms.Member?
    ensures OptionSays(o, ms) == OptionSays(OptionField(o, KeyOf(ms.key), ms.value), ms.more)
    ensures OptionShaped(ms) <==>
              Words(ms.value) && (KeyOf(ms.key) == "flag" ==> ms.value.Quoted?) && OptionShaped(ms.more)
  {
    hide OptionField, KeyOf, Words;
  }

  lemma OptionEnds(o: Flagged)
    ensures OptionSays(o, NoMembers) == o && OptionShaped(NoMembers)
  {}

  lemma OptionComesBack(o: Flagged)
    requires Holds(o.flag, 32)
    ensures OptionShaped(OptionTree(o)) && OptionSays(Flagged("", false), OptionTree(o)) == o
  {
    var ms, blank := OptionTree(o), Flagged("", false);
    assert ms == Member(FLAG, Quoted(o.flag), if o.hasArg then Member(ARG, Quoted("value"), NoMembers) else NoMembers);
    assert Words(Quoted(o.flag)) && Words(Quoted("value"));
    hide *;
    FlagIsField(blank, o.flag);
    OptionStep(blank, ms);
    var o1 := blank.(flag := o.flag);
    OptionEnds(o);
    if o.hasArg {
      ArgIsField(o1, Quoted("value"));
      OptionStep(o1, ms.more);
    }
  }

  /** Of any list of options the first sixteen are kept. */
  lemma {:induction false} FirstOptionsAreKept(kept: seq<Flagged>, os: seq<Flagged>)
    requires |kept| <= 16 && forall i :: 0 <= i < |os| ==> Holds(os[i].flag, 32)
    ensures OptionsShaped(|kept|, OptionsTree(os))
    ensures OptionsSay(kept, OptionsTree(os)) == if |kept| + |os| <= 16 then kept + os else (kept + os)[..16]
    decreases |os|
  {
    hide OptionTree, OptionSays, OptionShaped, Holds;
    if |os| > 0 {
      OptionComesBack(os[0]);
      OptionTreeWords(os[0]);
      var more := if |kept| < 16 then kept + [os[0]] else kept;
      FirstOptionsAreKept(more, os[1..]);
      if |kept| < 16 {
        assert more + os[1..] == kept + os;
      } else {
        assert (more + os[1..])[..16] == (kept + os)[..16] == kept;
      }
    }
  }

  lemma OptionsComeBack(kept: seq<Flagged>, os: seq<Flagged>)
    requires |kept| + |os| <= 16 && forall i :: 0 <= i < |os| ==> Holds(os[i].flag, 32)
    ensures OptionsShaped(|kept|, OptionsTree(os)) && OptionsSay(kept, OptionsTree(os)) == kept + os
  {
    FirstOptionsAreKept(kept, os);
  }

  lemma OptionTreeWords(o: Flagged)
    ensures Words(Object(OptionTree(o)))
  {}

  lemma {:induction false} OptionsTreeWords(os: seq<Flagged>)
    ensures Words(Array(OptionsTree(os)))
  {
    hide OptionTree;
    if |os| > 0 {
      OptionTreeWords(os[0]);
      OptionsTreeWords(os[1..]);
    }
  }

  lemma TrueFalseAreWords()
    ensures IsWord("true") && IsWord("false") && IsWord("1")
  {}

  lemma KindSlot()
    ensures SlotOf(KIND) == Kind && Holds(KIND, 32)
  {
    hide HasShort;
  }

  lemma ModernSlot()
    ensures SlotOf(MODERN) == Modern && Holds(MODERN, 32)
  {
    hide HasShort;
    assert |"kind"| == 4 && |"shell_modern"| == 12;
  }

  lemma OldSlot()
    ensures SlotOf(OLD16) == Old16 && Holds(OLD16, 32)
  {
    hide HasShort;
    assert |"kind"| == 4 && |"shell_win32s"| == 12;
    assert "shell_modern"[6] == 'm' && "shell_win32s"[6] == 'w';
  }

  lemma SupportsSlot()
    ensures SlotOf(SUPPORTS) == Supports && Holds(SUPPORTS, 32)
  {
    hide HasShort;
    assert |"kind"| == 4 && |"shell_modern"| == 12 && |"shell_win32s"| == 12 && |"supports_win32s"| == 15;
  }

  lemma OptionsSlot()
    ensures SlotOf(OPTIONS) == Options && Holds(OPTIONS, 32)
  {
    hide HasShort;
    assert |"kind"| == 4 && |"shell_modern"| == 12 && |"shell_win32s"| == 12 && |"supports_win32s"| == 15;
    assert |"options"| == 7;
  }

  function KindName(builtin: bool): string { if builtin then "shell-builtin" else "external" }

  lemma KindIsSaid(builtin: bool)
    ensures SaysBuiltin(Field(Quoted(KindName(builtin)), 32)) == builtin
  {
    KindNames();
    hide Field, SaysBuiltin, Holds;
    HeldIsKept(KindName(builtin), 32);
  }

  lemma KindNames()
    ensures SaysBuiltin("shell-builtin") && Holds("shell-builtin", 32)
    ensures !SaysBuiltin("external") && Holds("external", 32)
  {
    hide HasShort;
    assert |"external"| == 8 && |"shell-builtin"| == 13;
  }

  lemma KindIsField(e: Entry, builtin: bool)
    ensures var v := Quoted(KindName(builtin)); EntryField(e, Kind, v) == e.(builtin := builtin) && FieldShaped(e, Kind, v)
  {
    KindIsSaid(builtin);
    hide SaysBuiltin, Field, KindName;
  }

  lemma SupportIsField(e: Entry, yes: bool)
    requires !e.win32s
    ensures var v := Word(if yes then "true" else "false");
            EntryField(e, Supports, v) == e.(win32s := yes) && FieldShaped(e, Supports, v)
  {
    TrueFalseAreWords();
    hide IsWord;
  }

  lemma ShellsAreFields(e: Entry, s: string)
    requires Holds(s, 128)
    ensures EntryField(e, Modern, Quoted(s)) == e.(modern := s) && FieldShaped(e, Modern, Quoted(s))
    ensures EntryField(e, Old16, Quoted(s)) == e.(old16 := s) && FieldShaped(e, Old16, Quoted(s))
  {
    HeldIsKept(s, 128);
    hide Field;
  }

  lemma OptionsAreField(e: Entry, os: seq<Flagged>)
    requires e.options == [] && |os| <= MAX_OPTIONS && forall i :: 0 <= i < |os| ==> Holds(os[i].flag, 32)
    ensures var v := Array(OptionsTree(os));
            EntryField(e, Options, v) == e.(options := os) && FieldShaped(e, Options, v)
  {
    OptionsComeBack([], os);
    OptionsTreeWords(os);
    assert [] + os == os;
    hide OptionsTree, OptionsShaped, OptionsSay, ItemWords, Holds;
  }

  lemma EntryStep(e: Entry, ms: Members)
    requires ms.Member?
    ensures var (slot, v) := (SlotOf(KeyOf(ms.key)), ms.value);
            && EntrySays(e, ms) == EntrySays(EntryField(e, slot, v), ms.more)
            && (EntryShaped(e, ms) <==> FieldShaped(e, slot, v) && EntryShaped(EntryField(e, slot, v), ms.more))
  {
    hide EntryField, FieldShaped, KeyOf, SlotOf;
  }

  lemma EntryEnds(e: Entry)
    ensures EntrySays(e, NoMembers) == e && EntryShaped(e, NoMembers)
  {}

  lemma TreeParts(e: Entry)
    ensures var m1 := EntryTree(e);
            && m1 == Member(KIND, Quoted(KindName(e.builtin)), m1.more)
            && m1.more == Member(SUPPORTS, Word(if e.win32s then "true" else "false"), m1.more.more)
            && m1.more.more == Member(MODERN, Quoted(e.modern), m1.more.more.more)
            && m1.more.more.more == Member(OLD16, Quoted(e.old16), m1.more.more.more.more)
            && m1.more.more.more.more == Member(OPTIONS, Array(OptionsTree(e.options)), NoMembers)
  {}

  lemma HeldParts(e: Entry)
    requires HoldsEntry(e)
    ensures NewEntry(e.name) == Entry(e.name, false, false, "", "", [])
    ensures Holds(e.modern, 128) && Holds(e.old16, 128)
    ensures |e.options| <= MAX_OPTIONS && forall i :: 0 <= i < |e.options| ==> Holds(e.options[i].flag, 32)
  {
    hide Holds;
  }

  lemma EntryComesBack(e: Entry)
    requires HoldsEntry(e)
    ensures EntryShaped(NewEntry(e.name), EntryTree(e)) && EntrySays(NewEntry(e.name), EntryTree(e)) == e
  {
    hide *;
    var e0 := Entry(e.name, false, false, "", "", []);
    HeldParts(e);
    var m1 := EntryTree(e);
    TreeParts(e);
    var e1 := e0.(builtin := e.builtin);
    var e2 := e1.(win32s := e.win32s);
    var e3 := e2.(modern := e.modern);
    var e4 := e3.(old16 := e.old16);
    KindSlot();
    KeyIsKept(KIND);
    KindIsField(e0, e.builtin);
    EntryStep(e0, m1);
    SupportsSlot();
    KeyIsKept(SUPPORTS);
    SupportIsField(e1, e.win32s);
    EntryStep(e1, m1.more);
    ModernSlot();
    KeyIsKept(MODERN);
    ShellsAreFields(e2, e.modern);
    EntryStep(e2, m1.more.more);
    OldSlot();
    KeyIsKept(OLD16);
    ShellsAreFields(e3, e.old16);
    EntryStep(e3, m1.more.more.more);
    OptionsSlot();
    KeyIsKept(OPTIONS);
    OptionsAreField(e4, e.options);
    EntryStep(e4, m1.more.more.more.more);
    EntryEnds(e);
  }

  lemma {:induction false} CommandsComeBack(kept: seq<Entry>, es: seq<Entry>)
    requires |kept| + |es| <= MAX_ENTRIES && forall i :: 0 <= i < |es| ==> HoldsEntry(es[i])
    ensures CommandsShaped(|kept|, CommandsTree(es)) && CommandsSay(kept, CommandsTree(es)) == kept + es
    decreases |es|
  {
    hide EntryTree, EntrySays, EntryShaped, Clip, Heard;
    if |es| > 0 {
      EntryComesBack(es[0]);
      HeldIsKept(es[0].name, 64);
      CommandsComeBack(kept + [es[0]], es[1..]);
      assert kept + [es[0]] + es[1..] == kept + es;
    }
  }

  lemma {:induction false} CommandsTreeWords(es: seq<Entry>)
    ensures Words(Object(CommandsTree(es)))
  {
    hide IsWord, OptionsTree;
    if |es| > 0 {
      EntryTreeWords(es[0]);
      CommandsTreeWords(es[1..]);
      hide EntryTree;
    }
  }

  lemma EntryTreeWords(e: Entry)
    ensures Words(Object(EntryTree(e)))
  {
    var m1 := EntryTree(e);
    TreeParts(e);
    TrueFalseAreWords();
    OptionsTreeWords(e.options);
    hide IsWord, OptionsTree, ItemWords, EntryTree;
    MoreWords(m1.more.more.more.more);
    MoreWords(m1.more.more.more);
    MoreWords(m1.more.more);
    MoreWords(m1.more);
    MoreWords(m1);
  }

  lemma MoreWords(ms: Members)
    requires ms.Member? && Words(ms.value) && MemberWords(ms.more)
    ensures MemberWords(ms)
  {}

  lemma TopStep(es: seq<Entry>, ms: Members)
    requires ms.Member?
    ensures var es' := TopField(es, KeyOf(ms.key), ms.value);
            && TopSays(es, ms) == TopSays(es', ms.more)
            && (TopShaped(es, ms) <==>
                  && Words(ms.value) && TopShaped(es', ms.more)
                  && (KeyOf(ms.key) == "commands" ==> ms.value.Object? && CommandsShaped(|es|, ms.value.members)))
  {
    hide TopField, KeyOf, Words, CommandsShaped;
  }

  lemma TopEnds(es: seq<Entry>)
    ensures TopSays(es, NoMembers) == es && TopShaped(es, NoMembers)
  {}

  lemma VersionIsIgnored(v: Json)
    ensures TopField([], KeyOf(VERSION), v) == [] && KeyOf(VERSION) != "commands"
  {
    KeyIsKept(VERSION);
    assert |"version"| == 7 && |"commands"| == 8;
    hide KeyOf;
  }

  lemma CommandsAreField(es: seq<Entry>)
    requires |es| <= 64 && forall i :: 0 <= i < |es| ==> HoldsEntry(es[i])
    ensures TopField([], KeyOf(COMMANDS), Object(CommandsTree(es))) == es
    ensures CommandsShaped(0, CommandsTree(es))
  {
    CommandsComeBack([], es);
    assert [] + es == es;
    hide *;
    CommandsField(CommandsTree(es));
  }

  lemma CommandsField(ms: Members)
    ensures TopField([], KeyOf(COMMANDS), Object(ms)) == CommandsSay([], ms)
  {
    KeyIsKept(COMMANDS);
    hide KeyOf, CommandsSay;
  }

  lemma DocumentParts(es: seq<Entry>)
    ensures Document(es) == Member(VERSION, Word("1"), Member(COMMANDS, Object(CommandsTree(es)), NoMembers))
    ensures Words(Word("1"))
  {
    TrueFalseAreWords();
    hide CommandsTree, IsWord;
  }

  lemma LoadIs(s: string)
    ensures Load(s).Good? <==> ParseTop(s).Good? && |ParseTop(s).value| > 0
  {
    hide ParseTop;
  }

  /**
    A catalogue that the table can hold is printed in any layout, parsed and found
    again: every name, kind, shell and option, in order.
   */
  lemma CatalogComesBack(es: seq<Entry>, g: Layout, b: Gap, rest: string)
    requires |es| <= 64 && forall i :: 0 <= i < |es| ==> HoldsEntry(es[i])
    ensures var s := b + (PrintJson(Object(Document(es)), g) + rest);
            ParseTop(s) == Good(es, rest) && (Load(s).Good? <==> es != [])
  {
    hide *;
    var m1 := Document(es);
    DocumentParts(es);
    LoadIs(b + (PrintJson(Object(m1), g) + rest));
    VersionIsIgnored(m1.value);
    CommandsAreField(es);
    CommandsTreeWords(es);
    TopStep([], m1);
    TopStep([], m1.more);
    TopEnds(es);
    DocumentIsRead(m1, g, b, rest);
  }

  // ------------------------------------------------------------------
  // One entry too many
  // ------------------------------------------------------------------

  function Count(ms: Members): nat { if ms.NoMembers? then 0 else 1 + Count(ms.more) }

  predicate EntriesShaped(ms: Members) {
    ms.Member? ==>
      && ms.value.Object? && EntryShaped(NewEntry(Clip(Heard(ms.key), 64)), ms.value.members)
      && EntriesShaped(ms.more)
  }

  lemma {:induction false} TooManyCommands(es: seq<Entry>, ms: Members, g: Layout, rest: string)
    requires ms.Member? && EntriesShaped(ms) && |es| + Count(ms) > 64
    ensures Commands(PrintMembers(ms, g) + "}" + rest, es) == Bad
    decreases ms
  {
    if |es| < 64 {
      hide PrintMembers, PrintJson, Key, Then, ParseEntry, EntrySays, EntryShaped, Clip, Heard, AfterMember, Laid;
      var l, name := Laid(g), Clip(Heard(ms.key), 64);
      MemberSplits(ms, g, rest);
      EntryIsRead(name, ms.value.members, l.inner, l.value, AfterMember(ms, g, rest));
      assert ms.more.Member?;
      TooManyCommands(es + [EntrySays(NewEntry(name), ms.value.members)], ms.more, l.next, rest);
    }
  }

  lemma {:induction false} TreeOfMany(es: seq<Entry>)
    requires forall i :: 0 <= i < |es| ==> HoldsEntry(es[i])
    ensures EntriesShaped(CommandsTree(es)) && Count(CommandsTree(es)) == |es|
    decreases |es|
  {
    hide EntryTree, EntrySays, EntryShaped, Clip, Heard, HoldsEntry;
    if |es| > 0 {
      EntryComesBack(es[0]);
      NameIsHeld(es[0]);
      TreeOfMany(es[1..]);
    }
  }

  lemma NameIsHeld(e: Entry)
    requires HoldsEntry(e)
    ensures Clip(Heard(e.name), 64) == e.name
  {
    HeldIsKept(e.name, 64);
    hide Heard, Clip;
  }

  lemma CommandsRefused(ms: Members, g: Layout, b: Gap, rest: string)
    requires ms.Member? && EntriesShaped(ms) && Count(ms) > 64
    ensures ParseCommands(b + (PrintJson(Object(ms), g) + rest), []) == Bad
  {
    hide PrintMembers, PrintJson, Open, Commands, EntriesShaped, Laid;
    BlanksBeforeOpen(b, PrintJson(Object(ms), g) + rest, '{', '}');
    var t := ObjectOpens(ms, g, rest);
    BlanksBeforeCommands(Laid(g).before, t, []);
    TooManyCommands([], ms, g, rest);
  }

  lemma TopRefused(ms: Members, g: Layout, rest: string)
    requires ms.Member? && KeyOf(ms.key) == "commands" && ms.value.Object?
    requires ms.value.members.Member? && EntriesShaped(ms.value.members) && Count(ms.value.members) > 64
    ensures TopMembers(PrintMembers(ms, g) + "}" + rest, []) == Bad
  {
    var l := Laid(g);
    hide PrintMembers, PrintJson, Key, Then, ParseCommands, Clip, Heard, AfterMember, EntriesShaped, Laid, SkipValue;
    MemberSplits(ms, g, rest);
    CommandsRefused(ms.value.members, l.inner, l.value, AfterMember(ms, g, rest));
  }

  /** A catalogue of more entries than the table has room for is refused, in any layout. */
  lemma TooManyEntries(es: seq<Entry>, g: Layout, b: Gap, rest: string)
    requires |es| > 64 && forall i :: 0 <= i < |es| ==> HoldsEntry(es[i])
    ensures ParseTop(b + (PrintJson(Object(Document(es)), g) + rest)) == Bad
    ensures Load(b + (PrintJson(Object(Document(es)), g) + rest)) == Bad
  {
    hide *;
    var m1, l := Document(es), Laid(g);
    DocumentParts(es);
    TreeOfMany(es);
    TreeIsMember(es);
    VersionIsIgnored(m1.value);
    CommandsKey();
    TopRefused(m1.more, l.next, rest);
    SecondRefuses(m1, g, rest);
    WholeRefuses(m1, g, b, rest);
  }

  lemma TreeIsMember(es: seq<Entry>)
    requires |es| > 0
    ensures CommandsTree(es).Member?
  {}

  lemma CommandsKey()
    ensures KeyOf(COMMANDS) == "commands"
  {
    KeyIsKept(COMMANDS);
    hide KeyOf;
  }

  lemma SecondRefuses(ms: Members, g: Layout, rest: string)
    requires ms.Member? && ms.more.Member? && Words(ms.value) && KeyOf(ms.key) != "commands"
    requires TopMembers(PrintMembers(ms.more, Laid(g).next) + "}" + rest, []) == Bad
    ensures TopMembers(PrintMembers(ms, g) + "}" + rest, []) == Bad
  {
    var l := Laid(g);
    hide PrintMembers, PrintJson, Key, Then, TopMember, TopField, Clip, Heard, AfterMember, Words, Laid;
    MemberSplits(ms, g, rest);
    TopMemberIsRead([], KeyOf(ms.key), ms.value, l.inner, l.value, AfterMember(ms, g, rest));
    assert TopField([], KeyOf(ms.key), ms.value) == [] by { OtherTopField(KeyOf(ms.key), ms.value); }
  }

  lemma OtherTopField(key: string, v: Json)
    requires key != "commands"
    ensures TopField([], key, v) == []
  {}

  lemma WholeRefuses(ms: Members, g: Layout, b: Gap, rest: string)
    requires ms.Member? && TopMembers(PrintMembers(ms, g) + "}" + rest, []) == Bad
    ensures ParseTop(b + (PrintJson(Object(ms), g) + rest)) == Bad && Load(b + (PrintJson(Object(ms), g) + rest)) == Bad
  {
    hide PrintMembers, PrintJson, Open, TopMembers, Laid;
    BlanksBeforeOpen(b, PrintJson(Object(ms), g) + rest, '{', '}');
    var t := ObjectOpens(ms, g, rest);
    BlanksBeforeTopMembers(Laid(g).before, t, []);
  }

  // ------------------------------------------------------------------
  // Fields that the catalogue does not know
  // ------------------------------------------------------------------

  function Joined(a: Members, b: Members): Members
    decreases a
  {
    match a
    case NoMembers => b
    case Member(key, v, more) => Member(key, v, Joined(more, b))
  }

  /** An unknown field, of whatever value, changes nothing wherever it stands; and the parser takes it. */
  lemma {:induction false} UnknownIsIgnored(e: Entry, a: Members, key: string, v: Json, b: Members)
    requires Words(v) && SlotOf(KeyOf(key)) == Unknown
    ensures EntrySays(e, Joined(a, Member(key, v, b))) == EntrySays(e, Joined(a, b))
    ensures EntryShaped(e, Joined(a, b)) ==> EntryShaped(e, Joined(a, Member(key, v, b)))
    decreases a
  {
    hide KeyOf, Words, SlotOf;
    if a.Member? {
      UnknownIsIgnored(EntryField(e, SlotOf(KeyOf(a.key)), a.value), a.more, key, v, b);
      hide EntryField, FieldShaped;
    }
  }

  /** The same in an option, whose own fields are its flag and its argument mark. */
  lemma {:induction false} UnknownInOption(o: Flagged, a: Members, key: string, v: Json, b: Members)
    requires Words(v) && KeyOf(key) != "flag" && KeyOf(key) != "arg"
    ensures OptionSays(o, Joined(a, Member(key, v, b))) == OptionSays(o, Joined(a, b))
    ensures OptionShaped(Joined(a, b)) ==> OptionShaped(Joined(a, Member(key, v, b)))
    decreases a
  {
    hide KeyOf, Words;
    if a.Member? {
      UnknownInOption(OptionField(o, KeyOf(a.key), a.value), a.more, key, v, b);
      hide OptionField;
    }
  }

  /** And beside the commands, such as its version number. */
  lemma {:induction false} UnknownAtTop(es: seq<Entry>, a: Members, key: string, v: Json, b: Members)
    requires Words(v) && KeyOf(key) != "commands"
    ensures TopSays(es, Joined(a, Member(key, v, b))) == TopSays(es, Joined(a, b))
    ensures TopShaped(es, Joined(a, b)) ==> TopShaped(es, Joined(a, Member(key, v, b)))
    decreases a
  {
    hide KeyOf, Words, CommandsShaped;
    if a.Member? {
      UnknownAtTop(TopField(es, KeyOf(a.key), a.value), a.more, key, v, b);
      hide TopField;
    }
  }
}
