/**
  The call-site helpers of src/encoding.c: EncBytesToWire, which renders any
  source text to UTF-8 through a fixed window, and the code-page branch of
  EncOpenPath, which narrows a UTF-8 path.
 */
module WireText {
  import opened Text
  import opened Utf16
  import opened Utf8
  import opened CodePages
  import opened CodecLaws
  import opened CodePageLaws

  /** ENC_WIRE_BYTES and ENC_WIRE_UNITS. */
  const WINDOW: nat := 512

  const CP_UTF8: int := 65001

  /** How a source code page is read: through the codec, a baked page, or byte for byte. */
  datatype Source = Codec | Baked(p: CpPage) | Latin1

  ghost predicate Readable(src: Source) {
    src.Baked? ==> Sound(src.p) && Plain(src.p)
  }

  function SourceOf(pages: seq<CpPage>, cp: int): (r: Source)
    ensures r.Baked? ==> r.p in pages && r.p.cp == cp
  {
    if cp == CP_UTF8 then Codec else Registered(pages, cp)
  }

  /** UTF-8 is read through the codec, a page that is baked in through its tables, and any other as Latin-1. */
  lemma SourcesAre(pages: seq<CpPage>, cp: int)
    ensures SourceOf(pages, cp).Codec? <==> cp == 65001
    ensures SourceOf(pages, cp).Latin1? <==> cp != 65001 && forall p <- pages :: p.cp != cp
    ensures SourceOf(pages, cp).Baked? ==> SourceOf(pages, cp).p in pages && SourceOf(pages, cp).p.cp == cp
  {}

  function Registered(pages: seq<CpPage>, cp: int): (r: Source)
    ensures !r.Codec?
    ensures r.Baked? ==> r.p in pages && r.p.cp == cp
    ensures r.Latin1? <==> forall p <- pages :: p.cp != cp
  {
    if |pages| == 0 then Latin1
    else
      assert pages == [pages[0]] + pages[1..];
      if pages[0].cp == cp then Baked(pages[0]) else Registered(pages[1..], cp)
  }

  // ------------------------------------------------------------------
  // Windows of UTF-8
  // ------------------------------------------------------------------

  /** Back from a full window to a byte that may start a sequence; 0 when there is none. */
  function BackOff(s: seq<byte>, win: nat): (r: nat)
    requires win < |s|
    ensures r <= win && forall k :: r < k <= win ==> Continuation(s[k])
    ensures r > 0 ==> !Continuation(s[r])
  {
    if win > 0 && Continuation(s[win]) then BackOff(s, win - 1) else win
  }

  /** The bytes of the next window. */
  function WindowOf(s: seq<byte>): (w: nat)
    requires s != []
    ensures 0 < w <= |s|
    ensures w < |s| ==> w <= WINDOW && !Continuation(s[w])
  {
    if |s| <= WINDOW then |s|
    else if BackOff(s, WINDOW) > 0 then BackOff(s, WINDOW)
    else |s|
  }

  /** The units the windows of a UTF-8 source give, each window cut to the unit buffer. */
  function Windowed(s: seq<byte>): seq<unit> {
    if |s| == 0 then [] else Written8(s[..WindowOf(s)], WINDOW) + Windowed(s[WindowOf(s)..])
  }

  /** Some window is noticed to be lossy: one that was not cut. */
  predicate WindowedLossy(s: seq<byte>) {
    |s| > 0 && (var t := s[..WindowOf(s)];
                (|Decode(t)| <= WINDOW && !Clean8(t)) || WindowedLossy(s[WindowOf(s)..]))
  }

  /**
    The walk over the windows meets the one that takes the whole rest and holds
    more units than the buffer.
   */
  predicate Overflows(s: seq<byte>) {
    |s| > 0 && if WindowOf(s) == |s| then |Decode(s)| > WINDOW else Overflows(s[WindowOf(s)..])
  }

  lemma {:induction false} DecodeIsNoLonger(s: seq<byte>)
    ensures |Decode(s)| <= |s|
  {
    if s != [] { DecodeIsNoLonger(s[Next8(s).used..]); }
  }

  /** A window that leaves a rest is decoded whole, and the rest on its own. */
  lemma InnerWindow(s: seq<byte>)
    requires s != [] && WindowOf(s) < |s|
    ensures var (t, rest) := (s[..WindowOf(s)], s[WindowOf(s)..]);
            && |Decode(t)| <= WINDOW && Written8(t, WINDOW) == Decode(t)
            && Decode(s) == Decode(t) + Decode(rest)
            && (Clean8(s) <==> Clean8(t) && Clean8(rest))
  {
    hide Decode, Clean8, Written8;
    var t, rest := s[..WindowOf(s)], s[WindowOf(s)..];
    DecodeIsNoLonger(t);
    TruncatedDecode(t, WINDOW);
    assert s == t + rest;
    DecodeJoins(t, rest);
  }

  lemma LastWindow(s: seq<byte>)
    requires s != [] && WindowOf(s) == |s|
    ensures s[..WindowOf(s)] == s && s[WindowOf(s)..] == []
    ensures Windowed(s) == Written8(s, WINDOW)
    ensures WindowedLossy(s) <==> |Decode(s)| <= WINDOW && !Clean8(s)
  {
    hide Written8, Decode, Clean8;
    assert s[..WindowOf(s)] == s && s[WindowOf(s)..] == [];
    assert Windowed([]) == [];
  }

  /** The windowed pass equals the one-shot decode exactly when no window overflows the buffer. */
  lemma {:induction false} WindowedIsOneShot(s: seq<byte>)
    ensures Windowed(s) == Decode(s) <==> !Overflows(s)
    ensures !Overflows(s) ==> (WindowedLossy(s) <==> !Clean8(s))
    decreases |s|
  {
    hide Written8, Decode, Clean8;
    if s == [] {
      DecodeNone();
      assert Clean8([]) by { NothingIsClean(); }
    } else if WindowOf(s) == |s| {
      LastWindow(s);
      TruncatedDecode(s, WINDOW);
    } else {
      var t, rest := s[..WindowOf(s)], s[WindowOf(s)..];
      InnerWindow(s);
      WindowedIsOneShot(rest);
      assert Windowed(s) == Decode(t) + Windowed(rest);
      if Windowed(s) == Decode(s) {
        assert Windowed(rest) == Windowed(s)[|Decode(t)|..];
        assert Decode(rest) == Decode(s)[|Decode(t)|..];
      }
    }
  }

  lemma NothingIsClean()
    ensures Clean8([])
  {}

  /** 512 continuation bytes in a row, starting at j. */
  predicate LongRun(s: seq<byte>, j: nat) {
    j + WINDOW <= |s| && forall k :: j <= k < j + WINDOW ==> Continuation(s[k])
  }

  /** Ordinary text never overflows a window. */
  lemma {:induction false} NoLongRunNoOverflow(s: seq<byte>)
    requires forall j :: 0 <= j < |s| ==> !LongRun(s, j)
    ensures !Overflows(s)
    decreases |s|
  {
    if s != [] {
      if WindowOf(s) < |s| {
        var w := WindowOf(s);
        forall j | 0 <= j < |s[w..]| ensures !LongRun(s[w..], j) {
          if j + WINDOW <= |s[w..]| {
            var k :| w + j <= k < w + j + WINDOW && !Continuation(s[k]) by { assert !LongRun(s, w + j); }
            assert s[w..][k - w] == s[k];
          }
        }
        NoLongRunNoOverflow(s[w..]);
      } else if |s| > WINDOW {
        assert BackOff(s, WINDOW) == 0;
        assert LongRun(s, 1);
      } else {
        DecodeIsNoLonger(s);
      }
    }
  }

  /** The run does happen to matter: stray continuation bytes past the buffer are dropped. */
  lemma OverflowLosesText(n: nat)
    requires n > 512
    ensures var s: seq<byte> := seq(n, _ => 0x80); Overflows(s) && |Decode(s)| == n && |Windowed(s)| == 512
  {
    var s: seq<byte> := seq(n, _ => 0x80);
    StrayDecode(s);
    assert BackOff(s, WINDOW) == 0 by { BackOffThrough(s, WINDOW); }
    LastWindow(s);
    StrayIsCut(s, WINDOW);
  }

  lemma {:induction false} StrayIsCut(s: seq<byte>, cap: nat)
    requires (forall i :: 0 <= i < |s| ==> s[i] == 0x80) && cap <= |s|
    ensures |Written8(s, cap)| == cap
  {
    hide Value, Permitted, UnitsOf;
    if cap > 0 { StrayIsCut(s[1..], cap - 1); }
  }

  lemma {:induction false} StrayDecode(s: seq<byte>)
    requires forall i :: 0 <= i < |s| ==> s[i] == 0x80
    ensures |Decode(s)| == |s|
  {
    hide Value, Permitted, UnitsOf;
    if s != [] { StrayDecode(s[1..]); }
  }

  lemma {:induction false} BackOffThrough(s: seq<byte>, win: nat)
    requires win < |s| && forall i :: 0 <= i < |s| ==> s[i] == 0x80
    ensures BackOff(s, win) == 0
  {
    if win > 0 { BackOffThrough(s, win - 1); }
  }

  // ------------------------------------------------------------------
  // What a source reads as
  // ------------------------------------------------------------------

  /** The units of the whole text. */
  function UnitsOfSource(src: Source, s: seq<byte>): seq<unit>
    requires src.Baked? ==> Shaped(src.p)
  {
    match src
    case Codec => Windowed(s)
    case Baked(p) => DecodeCp(p, s)
    case Latin1 => s
  }

  predicate LossySource(src: Source, s: seq<byte>)
    requires src.Baked? ==> Shaped(src.p)
  {
    match src
    case Codec => WindowedLossy(s)
    case Baked(p) => REPLACEMENT in DecodeCp(p, s)
    case Latin1 => false
  }

  /** Bytes of a page that is not known are taken for the code points of the same number, each a unit. */
  lemma UnknownPageIsLatin1(s: seq<byte>)
    ensures UnitsOfSource(Latin1, s) == s && !LossySource(Latin1, s)
    ensures WellFormed16(UnitsOfSource(Latin1, s))
  {}

  // ------------------------------------------------------------------
  // Joining windows
  // ------------------------------------------------------------------

  /** A limited encode of joined text: the whole front and then the rest, or a cut inside the front. */
  lemma {:induction false} WrittenJoins(a: seq<unit>, b: seq<unit>, cap: nat)
    requires Joinable16(a, b)
    ensures Encode(a + b) == Encode(a) + Encode(b)
    ensures Written16(a + b, cap) ==
            if |Encode(a)| > cap then Written16(a, cap) else Encode(a) + Written16(b, cap - |Encode(a)|)
  {
    hide *;
    EncodeJoins(a, b);
    if |a| == 0 {
      assert a == [] && a + b == b;
      EncodeNone();
    } else {
      NextOfJoin(a, b);
      var d, len, e := Next16(a).used, Utf8Length(Next16(a).cp), EncodeScalar(Next16(a).cp);
      assert (a + b)[d..] == a[d..] + b;
      EncodeStep(a);
      if len > cap {
        WrittenStops(a, cap);
        WrittenStops(a + b, cap);
      } else {
        WrittenGoes(a, cap);
        WrittenGoes(a + b, cap);
        WrittenJoins(a[d..], b, cap - len);
        var more := |Encode(a[d..])|;
        if more <= cap - len { Assoc(e, Encode(a[d..]), Written16(b, cap - len - more)); }
      }
    }
  }

  lemma WrittenStops(u: seq<unit>, cap: nat)
    requires |u| > 0 && Utf8Length(Next16(u).cp) > cap
    ensures Written16(u, cap) == []
  {}

  lemma WrittenGoes(u: seq<unit>, cap: nat)
    requires |u| > 0 && Utf8Length(Next16(u).cp) <= cap
    ensures Written16(u, cap)
            == EncodeScalar(Next16(u).cp) + Written16(u[Next16(u).used..], cap - Utf8Length(Next16(u).cp))
  {}

  lemma WellFormedJoins(a: seq<unit>, b: seq<unit>)
    requires Clean16(a)
    ensures Joinable16(a, b)
  {
    CleanIsWellFormed16(a);
    if a != [] { assert !UnpairedAt(a, |a| - 1); }
  }

  /** A plain page never decodes to a surrogate. */
  lemma {:induction false} PlainDecode(p: CpPage, s: seq<byte>)
    requires Sound(p) && Plain(p)
    ensures forall u <- DecodeCp(p, s) :: !IsHigh(u) && !IsLow(u)
  {
    if s != [] {
      PlainDecode(p, s[NextCp(p, s).used..]);
      if NextCp(p, s).u != REPLACEMENT { FirstKeyIsDefined(p, s); }
    }
  }

  /** The window EncBytesToWire takes next: its units and its bytes. */
  predicate IsWindow(src: Source, s: seq<byte>, units: seq<unit>, w: nat)
    requires src.Baked? ==> Shaped(src.p)
  {
    s != [] && match src
               case Codec => w == WindowOf(s) && units == Written8(s[..w], WINDOW)
               case Baked(p) => w == Consumed(p, s, WINDOW) && units == FirstUnits(p, s, WINDOW)
               case Latin1 => w == (if |s| < WINDOW then |s| else WINDOW) && units == s[..w]
  }

  predicate WindowLossy(src: Source, s: seq<byte>, units: seq<unit>, w: nat) {
    match src
    case Codec => w <= |s| && |Decode(s[..w])| <= WINDOW && !Clean8(s[..w])
    case Baked(p) => REPLACEMENT in units
    case Latin1 => false
  }

  /** Every window makes progress, and the text is its window and then the rest. */
  lemma WindowStep(src: Source, s: seq<byte>, units: seq<unit>, w: nat)
    requires Readable(src) && IsWindow(src, s, units, w)
    ensures 0 < w <= |s|
    ensures UnitsOfSource(src, s) == units + UnitsOfSource(src, s[w..])
    ensures Joinable16(units, UnitsOfSource(src, s[w..]))
    ensures LossySource(src, s) <==> WindowLossy(src, s, units, w) || LossySource(src, s[w..])
  {
    match src
    case Codec =>
      CodecWindowStep(s);
    case Baked(p) =>
      DecodeResumes(p, s, WINDOW);
      PlainDecode(p, s);
      if units != [] { assert units[|units| - 1] == DecodeCp(p, s)[|units| - 1]; }
    case Latin1 =>
      assert s == s[..w] + s[w..];
  }

  lemma CodecWindowStep(s: seq<byte>)
    requires s != []
    ensures Joinable16(Written8(s[..WindowOf(s)], WINDOW), Windowed(s[WindowOf(s)..]))
  {
    hide Written8, Windowed;
    if WindowOf(s) < |s| {
      InnerWindow(s);
      EncodeOfDecode(s[..WindowOf(s)]);
      WellFormedJoins(Decode(s[..WindowOf(s)]), Windowed(s[WindowOf(s)..]));
    } else {
      LastWindow(s);
      assert Windowed([]) == [] by { NoWindows(); }
    }
  }

  lemma NoWindows()
    ensures Windowed([]) == []
  {}

  // ------------------------------------------------------------------
  // EncBytesToWire
  // ------------------------------------------------------------------

  method FindPage(pages: seq<CpPage>, cp: int) returns (r: Source)
    ensures r == Registered(pages, cp)
  {
    assert pages[0..] == pages;
    for i := 0 to |pages|
      invariant Registered(pages, cp) == Registered(pages[i..], cp)
    {
      if pages[i].cp == cp {
        return Baked(pages[i]);
      }
      assert pages[i..][1..] == pages[i + 1..];
    }
    return Latin1;
  }

  /** The window arithmetic: at most 512 bytes, ending before a byte that may start a sequence. */
  method TakeWindow(mb: seq<byte>, i: nat) returns (win: nat)
    requires i < |mb|
    ensures win == WindowOf(mb[i..])
  {
    ghost var s := mb[i..];
    win := |mb| - i;
    if win > WINDOW {
      win := WINDOW;
      while win > 0 && Continuation(mb[i + win])
        invariant win <= WINDOW && BackOff(s, WINDOW) == BackOff(s, win)
      {
        assert s[win] == mb[i + win];
        win := win - 1;
      }
      assert s[win] == mb[i + win];
      if win == 0 {
        win := |mb| - i;
      }
    }
  }

  /** One window read into the unit buffer by whichever decoder the source needs. */
  method ReadWindow(src: Source, mb: seq<byte>, i: nat, wide: array<unit>) returns (nWide: nat, used: nat, lossy: bool)
    requires i < |mb| && wide.Length == WINDOW && Readable(src)
    modifies wide
    ensures nWide <= WINDOW && IsWindow(src, mb[i..], wide[..nWide], used)
    ensures lossy <==> WindowLossy(src, mb[i..], wide[..nWide], used)
  {
    hide FirstUnits, Consumed, Written8, Decode, Clean8, Sound, Plain;
    match src
    case Codec =>
      used := TakeWindow(mb, i);
      assert mb[i..i + used] == mb[i..][..used];
      var ds;
      nWide, ds := Utf8ToUtf16(mb[i..i + used], wide, WINDOW);
      lossy := ds == Lossy;
    case Baked(p) =>
      SoundIsShaped(p);
      nWide, lossy, used := CpDecode(p, mb[i..], wide, WINDOW);
    case Latin1 =>
      var k := 0;
      while k < WINDOW && i + k < |mb|
        invariant k <= WINDOW && i + k <= |mb|
        invariant wide[..k] == mb[i..i + k]
      {
        wide[k] := mb[i + k];
        k := k + 1;
      }
      nWide, used, lossy := k, k, false;
      assert mb[i..i + k] == mb[i..][..k];
  }

  /**
    Renders a source text to the wire: the longest clean prefix of the encode of
    its units, whatever the windows.
   */
  method EncBytesToWire(pages: seq<CpPage>, srcCp: int, mb: seq<byte>, out: array<byte>, outCap: nat)
    returns (nOut: nat, status: Status)
    requires outCap <= out.Length
    requires forall p <- pages :: Shaped(p) && Sound(p) && Plain(p)
    modifies out
    ensures var src := SourceOf(pages, srcCp);
            var units := UnitsOfSource(src, mb);
            && nOut == |Written16(units, outCap)|
            && out[..] == Overwrite(old(out[..]), 0, Written16(units, outCap))
            && status == if |Encode(units)| > outCap then Truncated
                         else if LossySource(src, mb) then Lossy else Fine
  {
    hide *;
    var wide := new unit[WINDOW];
    var src := Codec;
    if srcCp != CP_UTF8 { src := FindPage(pages, srcCp); }
    SourceIs(pages, srcCp, src);
    var i := 0;
    nOut := 0;
    var lossyAny, truncated := false, false;
    ghost var buf, done: seq<byte> := out[..], [];
    ghost var units := UnitsOfSource(src, mb);
    ghost var text, whole, lossy := Written16(units, outCap), Encode(units), LossySource(src, mb);
    OverwriteNone(buf, 0);
    assert mb[0..] == mb;
    while i < |mb| && !truncated
      invariant i <= |mb| && nOut == |done| <= outCap
      invariant truncated ==> text == done && |whole| > outCap
      invariant !truncated ==> text == done + Written16(UnitsOfSource(src, mb[i..]), outCap - nOut)
      invariant !truncated ==> whole == done + Encode(UnitsOfSource(src, mb[i..]))
      invariant !truncated ==> (lossy <==> lossyAny || LossySource(src, mb[i..]))
      invariant out[..] == Overwrite(buf, 0, done)
      decreases |mb| - i, !truncated
    {
      var nWide, used, lz := ReadWindow(src, mb, i, wide);
      ghost var now := wide[..nWide];
      WindowStep(src, mb[i..], now, used);
      ghost var rest := UnitsOfSource(src, mb[i..][used..]);
      WrittenJoins(now, rest, outCap - nOut);
      DropDrop(mb, i, used);
      if lz { lossyAny := true; }
      i := i + used;
      var ce, es := Utf16ToUtf8(wide[..nWide], out, nOut, outCap - nOut);
      TruncatedEncode(now, outCap - nOut);
      OverwriteTwice(buf, 0, done, Written16(now, outCap - nOut));
      if es == Truncated {
        truncated := true;
      } else {
        Assoc(done, Encode(now), Encode(rest));
        Assoc(done, Encode(now), Written16(rest, outCap - nOut - |Encode(now)|));
      }
      done := done + Written16(now, outCap - nOut);
      nOut := nOut + ce;
    }
    if !truncated {
      NothingLeft(src, outCap - nOut);
      assert mb[i..] == [];
      assert text == done && whole == done;
    }
    status := if truncated then Truncated else if lossyAny then Lossy else Fine;
  }

  lemma SourceIs(pages: seq<CpPage>, cp: int, src: Source)
    requires src == if cp == CP_UTF8 then Codec else Registered(pages, cp)
    requires forall p <- pages :: Shaped(p) && Sound(p) && Plain(p)
    ensures src == SourceOf(pages, cp) && Readable(src)
    ensures src.Baked? ==> Shaped(src.p)
  {}

  lemma NothingLeft(src: Source, room: nat)
    requires src.Baked? ==> Shaped(src.p)
    ensures UnitsOfSource(src, []) == [] && !LossySource(src, [])
    ensures Written16([], room) == [] && Encode([]) == []
  {}

  // ------------------------------------------------------------------
  // What the wire carries
  // ------------------------------------------------------------------

  /** A UTF-8 source is rendered as its one-shot repair, and only an overflowing window can change that. */
  lemma CodecWireIsOneShot(s: seq<byte>)
    ensures Encode(UnitsOfSource(Codec, s)) == Encode(Decode(s)) <==> !Overflows(s)
    ensures !Overflows(s) ==> (LossySource(Codec, s) <==> !WellFormed8(s))
  {
    WindowedIsOneShot(s);
    CleanIsWellFormed8(s);
    WindowedIsWellFormed(s);
    DecodeOfEncode(Windowed(s));
    EncodeOfDecode(s);
    DecodeOfEncode(Decode(s));
  }

  lemma {:induction false} WindowedIsWellFormed(s: seq<byte>)
    ensures Clean16(Windowed(s))
    decreases |s|
  {
    hide *;
    if s == [] {
      NoWindows();
      NoUnitsAreClean();
    } else {
      var w := WindowOf(s);
      WindowedIsWellFormed(s[w..]);
      CodecWindowStep(s);
      TruncatedDecode(s[..w], WINDOW);
      CleanIsWellFormed16(Written8(s[..w], WINDOW));
      CleanJoins(Written8(s[..w], WINDOW), Windowed(s[w..]));
      WindowedOnce(s);
    }
  }

  lemma WindowedOnce(s: seq<byte>)
    requires s != []
    ensures Windowed(s) == Written8(s[..WindowOf(s)], WINDOW) + Windowed(s[WindowOf(s)..])
  {}

  lemma NoUnitsAreClean()
    ensures Clean16([])
  {}

  lemma {:induction false} CleanJoins(a: seq<unit>, b: seq<unit>)
    requires Clean16(a) && Clean16(b)
    ensures Clean16(a + b)
  {
    hide Next16;
    WellFormedJoins(a, b);
    if a == [] {
      assert a + b == b;
    } else {
      NextOfJoin(a, b);
      assert (a + b)[Next16(a).used..] == a[Next16(a).used..] + b;
      CleanJoins(a[Next16(a).used..], b);
    }
  }

  /** Whatever the source and the capacity, what reaches the wire is well-formed UTF-8. */
  lemma WireIsWellFormed(src: Source, s: seq<byte>, cap: nat)
    requires Readable(src)
    ensures WellFormed8(Written16(UnitsOfSource(src, s), cap)) && |Written16(UnitsOfSource(src, s), cap)| <= cap
  {
    TruncatedEncode(UnitsOfSource(src, s), cap);
  }

  // ------------------------------------------------------------------
  // EncOpenPath on the code-page tier
  // ------------------------------------------------------------------

  /** ENC_PATH_WIDE - 1 and ENC_PATH_MB - 1. */
  const PATH_UNITS: nat := 259
  const PATH_BYTES: nat := 1040

  /** The form a path takes for an -A call: its status, where it was rejected, and the narrowed bytes. */
  datatype PathForm = PathForm(status: Status, rejectAt: int, mb: seq<byte>)

  function OpenPath(p: CpPage, path: seq<byte>): PathForm {
    var wide := Written8(path, PATH_UNITS);
    var r := Narrow(p.rev, wide);
    if r.stop < |wide| then PathForm(Rejected, r.stop, [])
    else PathForm(if |Decode(path)| <= PATH_UNITS && !Clean8(path) then Lossy else Fine, -1, r.bytes)
  }

  lemma {:induction false} NarrowIsShort(rev: seq<RevEntry>, u: seq<unit>)
    ensures |Narrow(rev, u).bytes| <= 2 * Narrow(rev, u).stop
  {
    if u != [] && Canonical(rev, u[0]) >= 0 { NarrowIsShort(rev, u[1..]); }
  }

  /** Widen, then narrow strictly; mbOut always ends up NUL-terminated. */
  method EncOpenPath(p: CpPage, path: seq<byte>, mbOut: array<byte>) returns (status: Status, rejectAt: int)
    requires Sorted(p.rev) && mbOut.Length == PATH_BYTES + 1
    modifies mbOut
    ensures var form := OpenPath(p, path);
            && status == form.status && rejectAt == form.rejectAt
            && |form.mb| <= PATH_BYTES && mbOut[..|form.mb|] == form.mb && mbOut[|form.mb|] == 0
  {
    hide Written8, Decode, Clean8, Narrow;
    var wide := new unit[PATH_UNITS];
    rejectAt := -1;
    var nWide, st := Utf8ToUtf16(path, wide, PATH_UNITS);
    assert wide[..nWide] == Written8(path, PATH_UNITS);
    var nb;
    NarrowIsShort(p.rev, wide[..nWide]);
    nb, rejectAt := CpEncode(p, wide[..nWide], mbOut, PATH_BYTES);
    if nb == -1 {
      mbOut[0] := 0;
      return Rejected, rejectAt;
    }
    if nb < 0 {
      // The overflow branch, ENC_TRUNCATED: two bytes a unit always fit.
      assert false;
    }
    mbOut[nb] := 0;
    status := if st == Lossy then Lossy else Fine;
  }

  /** The units kept of a well-formed path: a clean prefix that encodes a prefix of the path. */
  lemma PathUnits(path: seq<byte>, cap: nat)
    requires WellFormed8(path) && |path| <= cap
    ensures var (u, wide) := (Decode(path), Written8(path, PATH_UNITS));
            && Clean8(path) && Encode(u) == path
            && wide <= u && (wide == u <==> |u| <= PATH_UNITS)
            && (Written16(wide, cap) == path <==> |u| <= PATH_UNITS)
  {
    hide *;
    var u, wide := Decode(path), Written8(path, PATH_UNITS);
    CleanIsWellFormed8(path);
    EncodeOfDecode(path);
    TruncatedDecode(path, PATH_UNITS);
    Written8IsPrefix(path, PATH_UNITS);
    var rest := u[|wide|..];
    assert u == wide + rest;
    CleanIsWellFormed16(wide);
    WellFormedJoins(wide, rest);
    EncodeJoins(wide, rest);
    EncodeSome(rest);
    TruncatedEncode(wide, cap);
  }

  lemma EncodeSome(u: seq<unit>)
    ensures u != [] <==> Encode(u) != []
  {}

  /**
    Narrow, then render: a well-formed path is either rejected at its first
    unrepresentable unit with nothing usable, or accepted; and an accepted path
    comes back from the same page byte for byte exactly when its units fit the
    path buffer.
   */
  lemma NarrowThenRender(p: CpPage, path: seq<byte>, cap: nat)
    requires Sound(p) && Plain(p) && WellFormed8(path) && |path| <= cap
    ensures var form := OpenPath(p, path);
            var u := Decode(path);
            && Encode(u) == path
            && (form.status == Rejected <==> form.rejectAt != -1)
            && (form.status == Rejected ==>
                  form.mb == [] && 0 <= form.rejectAt < |u| && Canonical(p.rev, u[form.rejectAt]) < 0
                  && forall i :: 0 <= i < form.rejectAt ==> Canonical(p.rev, u[i]) >= 0)
            && (form.status != Rejected ==>
                  form.status == Fine && !LossySource(Baked(p), form.mb)
                  && UnitsOfSource(Baked(p), form.mb) == Written8(path, 259)
                  && (Written16(UnitsOfSource(Baked(p), form.mb), cap) == path <==> |u| <= PATH_UNITS))
  {
    hide Written8, Decode, Clean8, Narrow, Sound, Plain, Written16, Encode, Canonical, WellFormed8, Shaped, DecodeCp;
    var wide := Written8(path, PATH_UNITS);
    PathUnits(path, cap);
    SoundIsShaped(p);
    NarrowStops(p.rev, wide);
    DecodeOfNarrow(p, wide);
    assert wide[..|wide|] == wide;
  }

  /** A cut decode fills its room, but for one unit where a pair would have been split. */
  lemma {:induction false} CutIsFull(s: seq<byte>, cap: nat)
    ensures |Decode(s)| > cap ==>
              |Written8(s, cap)| == cap || (|Written8(s, cap)| == cap - 1 && !Boundary16(Decode(s), cap))
  {
    hide *;
    if |s| == 0 {
      assert s == [];
      DecodeNone();
    } else {
      var u, t := Next8(s).units, s[Next8(s).used..];
      FillStep(s, cap);
      if |u| <= cap {
        CutIsFull(t, cap - |u|);
        if |Decode(s)| > cap && |Written8(s, cap)| != cap { LaterBoundary(u, Decode(t), cap); }
      } else if |u| == 2 && cap == 1 {
        PairIsNoBoundary(s);
      }
    }
  }

  lemma FillStep(s: seq<byte>, cap: nat)
    requires |s| > 0
    ensures 1 <= |Next8(s).units| <= 2
    ensures Decode(s) == Next8(s).units + Decode(s[Next8(s).used..])
    ensures Written8(s, cap) ==
            if |Next8(s).units| > cap then [] else Next8(s).units + Written8(s[Next8(s).used..], cap - |Next8(s).units|)
  {}

  lemma LaterBoundary(u: seq<unit>, v: seq<unit>, cap: nat)
    requires |u| < cap
    ensures Boundary16(u + v, cap) ==> Boundary16(v, cap - |u|)
  {}

  lemma PairIsNoBoundary(s: seq<byte>)
    requires |s| > 0 && |Next8(s).units| == 2
    ensures !Boundary16(Decode(s), 1)
  {
    StepFollowsTable(s);
    FillStep(s, 0);
    hide Next8, Decode;
    var u := Next8(s).units;
    assert IsHigh(u[0]) && IsLow(u[1]);
  }

  /** A path is kept up to 259 units, less one where that would split a pair. */
  lemma KeptUnits(path: seq<byte>)
    ensures var (u, kept) := (Decode(path), Written8(path, PATH_UNITS));
            && kept <= u && |kept| <= 259 && (|u| <= 259 ==> kept == u)
            && (|u| > 259 ==> |kept| == 259 || (|kept| == 258 && !Boundary16(u, 259)))
  {
    Written8IsPrefix(path, PATH_UNITS);
    TruncatedDecode(path, PATH_UNITS);
    CutIsFull(path, PATH_UNITS);
    hide Written8, Decode;
  }

  lemma {:induction false} LossyShows(s: seq<byte>)
    ensures !Clean8(s) ==> 0xFFFD in Decode(s)
  {
    hide *;
    if |s| == 0 {
      assert s == [];
      NothingIsClean();
    } else {
      LossyShows(s[Next8(s).used..]);
      LossyStep(s);
    }
  }

  lemma LossyStep(s: seq<byte>)
    requires |s| > 0
    ensures Clean8(s) <==> !Next8(s).lossy && Clean8(s[Next8(s).used..])
    ensures Decode(s) == Next8(s).units + Decode(s[Next8(s).used..])
    ensures Next8(s).lossy ==> Next8(s).units == [0xFFFD]
  {
    hide Value, Permitted, UnitsOf;
  }

  lemma ReplacementIsUnmapped(p: CpPage)
    requires Sound(p)
    ensures Canonical(p.rev, 0xFFFD) < 0
  {
    SoundIsShaped(p);
    forall e <- p.rev ensures e.cu != 0xFFFD {}
  }

  /**
    No page has U+FFFD, so an ill-formed path that is not cut is always rejected, with
    nothing to open; an OK status with substitutions in it is never given.
   */
  lemma IllFormedIsRejected(p: CpPage, path: seq<byte>)
    requires Sound(p)
    ensures OpenPath(p, path).status in {Fine, Rejected}
    ensures !WellFormed8(path) && |Decode(path)| <= 259 ==>
              var form := OpenPath(p, path);
              form.status == Rejected && form.mb == [] && 0 <= form.rejectAt < |Decode(path)|
  {
    var wide := Written8(path, PATH_UNITS);
    CleanIsWellFormed8(path);
    LossyShows(path);
    KeptUnits(path);
    NarrowStops(p.rev, wide);
    ReplacementIsUnmapped(p);
    hide Decode, Clean8, Written8, Narrow, Canonical, WellFormed8, Sound;
    if 0xFFFD in wide {
      var k :| 0 <= k < |wide| && wide[k] == 0xFFFD;
      assert Canonical(p.rev, wide[k]) < 0;
    }
  }

  // ------------------------------------------------------------------
  // A path that is cut without a word
  // ------------------------------------------------------------------

  predicate Ascii(s: seq<byte>) { forall i :: 0 <= i < |s| ==> s[i] < 0x80 }

  /** The page reads the bytes below 0x80 as themselves, as every page does that a Windows system runs on. */
  predicate MapsAscii(p: CpPage)
    requires Shaped(p)
  {
    forall b: byte :: b < 0x80 ==> Defined(p, b) && Forward(p, b) == b
  }

  lemma {:induction false} AsciiDecodes(s: seq<byte>)
    requires Ascii(s)
    ensures Clean8(s) && |Decode(s)| == |s| && forall i :: 0 <= i < |s| ==> Decode(s)[i] == s[i]
  {
    if |s| > 0 {
      var t := s[Next8(s).used..];
      assert t == s[1..] && Next8(s).units == [s[0]];
      AsciiDecodes(t);
      forall i | 0 <= i < |s| ensures Decode(s)[i] == s[i] {
        if i > 0 { assert Decode(s)[i] == Decode(t)[i - 1]; }
      }
    }
  }

  /** The first 259 bytes of an ASCII path are kept, and written as themselves. */
  lemma AsciiIsKept(path: seq<byte>, cap: nat)
    requires Ascii(path) && 259 < |path| <= cap
    ensures Written16(Written8(path, 259), cap) == path[..259]
  {
    var front, kept := path[..259], Written8(path, 259);
    AsciiDecodes(path);
    AsciiDecodes(front);
    KeptUnits(path);
    var u := Decode(path);
    assert Boundary16(u, 259) by { assert u[258] == path[258] && u[259] == path[259]; }
    assert |kept| == 259;
    assert kept == Decode(front) by { assert forall i :: 0 <= i < 259 ==> kept[i] == u[i] == path[i] == Decode(front)[i]; }
    EncodeOfDecode(front);
    TruncatedEncode(kept, cap);
    hide *;
  }

  /**
    An ASCII path longer than 259 bytes is always accepted, with an OK status, and the
    name that is opened is its first 259 bytes.
   */
  lemma LongPathIsCut(p: CpPage, path: seq<byte>, cap: nat)
    requires Sound(p) && Plain(p) && MapsAscii(p) && Ascii(path) && 259 < |path| <= cap
    ensures var form := OpenPath(p, path);
            && form.status == Fine && form.rejectAt == -1
            && Written16(UnitsOfSource(Baked(p), form.mb), cap) == path[..259]
  {
    AsciiDecodes(path);
    CleanIsWellFormed8(path);
    NarrowThenRender(p, path, cap);
    AsciiIsKept(path, cap);
    var form, u := OpenPath(p, path), Decode(path);
    hide OpenPath, Decode, Written16, UnitsOfSource, Encode, Clean8, WellFormed8;
    forall i | 0 <= i < |u| ensures Canonical(p.rev, u[i]) >= 0 {
      CanonicalIsLowest(p, path[i]);
    }
  }

  /** A page with the bytes below 0x80 alone. */
  function AsciiPage(cp: int): CpPage {
    CpPage(cp, false, seq(0x100, b requires 0 <= b < 0x100 => if b < 0x80 then b else REPLACEMENT), [], [], [],
           seq(0x80, b requires 0 <= b < 0x80 => RevEntry(b, b)))
  }

  lemma AsciiPageIsSound(cp: int)
    ensures var p := AsciiPage(cp); Sound(p) && Plain(p) && MapsAscii(p)
  {
    var p := AsciiPage(cp);
    forall mb: nat | Defined(p, mb) ensures exists e :: e in p.rev && e.cu == Forward(p, mb) && e.mb <= mb {
      assert p.rev[mb] == RevEntry(mb, mb);
    }
  }

  /** The shortest such path: 260 times the letter a, on a page of ASCII alone. */
  lemma ShortestCutPath(cp: int)
    ensures var (p, path) := (AsciiPage(cp), seq(260, _ => 0x61 as byte));
            && |path| == 260 && OpenPath(p, path).status == Fine
            && |Written16(UnitsOfSource(Baked(p), OpenPath(p, path).mb), 260)| == 259
  {
    AsciiPageIsSound(cp);
    LongPathIsCut(AsciiPage(cp), seq(260, _ => 0x61 as byte), 260);
  }
}
