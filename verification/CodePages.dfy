/**
  The table-driven code pages of src/charset_tables.c: decoding, strict encoding
  and the laws that hold for every page whose tables are sound.
 */
module CodePages {
  import opened Text
  import Utf16

  /** One entry of the reverse map: a code unit and its canonical byte sequence. */
  datatype RevEntry = RevEntry(cu: unit, mb: nat)

  /** One baked page; the double-byte tables are empty on a single-byte page. */
  datatype CpPage = CpPage(cp: int, isDbcs: bool, dec1: seq<unit>, lead: seq<bool>,
                           leadrow: seq<int>, dec2: seq<unit>, rev: seq<RevEntry>)

  predicate IsLead(p: CpPage, b: byte)
    requires p.isDbcs ==> |p.lead| == 0x100
  {
    p.isDbcs && p.lead[b]
  }

  /** The tables have the shape the decoder indexes into. */
  predicate Shaped(p: CpPage) {
    && |p.dec1| == 0x100
    && (p.isDbcs ==> |p.lead| == |p.leadrow| == 0x100)
    && (p.isDbcs ==> forall b: byte :: p.lead[b] ==> 0 <= p.leadrow[b] && p.leadrow[b] * 0x100 + 0x100 <= |p.dec2|)
  }

  /** The unit a lead byte and its trail stand for. */
  function Trail(p: CpPage, lead: byte, t: byte): unit
    requires Shaped(p) && IsLead(p, lead)
  {
    p.dec2[p.leadrow[lead] * 0x100 + t]
  }

  /** mb names a byte sequence the page reads as one character or as undefined. */
  predicate Key(p: CpPage, mb: nat)
    requires Shaped(p)
  {
    if mb <= 0xFF then !IsLead(p, mb) else mb <= 0xFFFF && IsLead(p, mb / 0x100)
  }

  /** The unit a byte sequence stands for, U+FFFD when the page leaves it undefined. */
  function Forward(p: CpPage, mb: nat): unit
    requires Shaped(p) && Key(p, mb)
  {
    if mb <= 0xFF then p.dec1[mb] else Trail(p, mb / 0x100, mb % 0x100)
  }

  predicate Defined(p: CpPage, mb: nat)
    requires Shaped(p)
  {
    Key(p, mb) && Forward(p, mb) != REPLACEMENT
  }

  /** No character of the page is a surrogate, so no decode holds half a pair. */
  ghost predicate Plain(p: CpPage)
    requires Shaped(p)
  {
    forall mb: nat :: Defined(p, mb) ==> !Utf16.IsHigh(Forward(p, mb)) && !Utf16.IsLow(Forward(p, mb))
  }

  predicate Sorted(rev: seq<RevEntry>) {
    forall i, j :: 0 <= i < j < |rev| ==> rev[i].cu < rev[j].cu
  }

  /** The reverse map is sorted and holds, for each unit the page can produce, its lowest byte sequence. */
  ghost predicate Sound(p: CpPage) {
    && Shaped(p)
    && (IsLead(p, 0) ==> forall t: byte :: Trail(p, 0, t) == REPLACEMENT)
    && Sorted(p.rev)
    && (forall e <- p.rev :: Defined(p, e.mb) && Forward(p, e.mb) == e.cu)
    && (forall mb: nat :: Defined(p, mb) ==> exists e :: e in p.rev && e.cu == Forward(p, mb) && e.mb <= mb)
  }

  // ------------------------------------------------------------------
  // Decoding
  // ------------------------------------------------------------------

  datatype CpStep = CpStep(u: unit, used: nat)

  function NextCp(p: CpPage, s: seq<byte>): (r: CpStep)
    requires Shaped(p) && s != []
    ensures 1 <= r.used <= |s|
  {
    if IsLead(p, s[0]) then
      if |s| < 2 then CpStep(REPLACEMENT, 1)
      else
        var u := Trail(p, s[0], s[1]);
        if u == REPLACEMENT then CpStep(u, 1) else CpStep(u, 2)
    else CpStep(p.dec1[s[0]], 1)
  }

  function DecodeCp(p: CpPage, s: seq<byte>): (r: seq<unit>)
    requires Shaped(p)
    ensures |r| <= |s|
  {
    if |s| == 0 then [] else [NextCp(p, s).u] + DecodeCp(p, s[NextCp(p, s).used..])
  }

  /** The bytes that the first `cap` characters take. */
  function Consumed(p: CpPage, s: seq<byte>, cap: nat): (k: nat)
    requires Shaped(p)
    ensures k <= |s|
    ensures s != [] && cap > 0 ==> k > 0
  {
    if |s| == 0 || cap == 0 then 0
    else NextCp(p, s).used + Consumed(p, s[NextCp(p, s).used..], cap - 1)
  }

  /** The first `cap` units of the decode. */
  function FirstUnits(p: CpPage, s: seq<byte>, cap: nat): seq<unit>
    requires Shaped(p)
  {
    if |s| == 0 || cap == 0 then []
    else [NextCp(p, s).u] + FirstUnits(p, s[NextCp(p, s).used..], cap - 1)
  }

  /**
    After anything that is not a character of the page the decoder goes on at the very
    next byte: a pair that is undefined, and a lead byte at the end, give one U+FFFD
    for one byte, and the trail byte is read again; a defined pair takes both bytes.
   */
  lemma DecoderResynchronises(p: CpPage, b: byte, t: byte, rest: seq<byte>)
    requires Shaped(p) && IsLead(p, b)
    ensures Trail(p, b, t) == 0xFFFD ==>
              DecodeCp(p, [b, t] + rest) == [0xFFFD] + DecodeCp(p, [t] + rest) && Consumed(p, [b, t] + rest, 1) == 1
    ensures Trail(p, b, t) != 0xFFFD ==>
              DecodeCp(p, [b, t] + rest) == [Trail(p, b, t)] + DecodeCp(p, rest) && Consumed(p, [b, t] + rest, 1) == 2
    ensures DecodeCp(p, [b]) == [0xFFFD] && Consumed(p, [b], 1) == 1
  {
    var s := [b, t] + rest;
    assert s[1..] == [t] + rest && s[2..] == rest && [b][1..] == [];
    hide IsLead, Trail, Shaped;
    assert Consumed(p, s[NextCp(p, s).used..], 0) == 0;
  }

  /** A single byte is always one unit, U+FFFD if the page leaves it undefined. */
  lemma SinglesAreUnits(p: CpPage, b: byte, rest: seq<byte>)
    requires Shaped(p) && !IsLead(p, b)
    ensures DecodeCp(p, [b] + rest) == [p.dec1[b]] + DecodeCp(p, rest) && Consumed(p, [b] + rest, 1) == 1
  {
    var s := [b] + rest;
    assert s[1..] == rest;
    hide IsLead, Trail, Shaped;
    assert Consumed(p, s[NextCp(p, s).used..], 0) == 0;
  }

  /** Stopping after any number of characters loses nothing. */
  lemma {:induction false} DecodeResumes(p: CpPage, s: seq<byte>, cap: nat)
    requires Shaped(p)
    ensures DecodeCp(p, s) == FirstUnits(p, s, cap) + DecodeCp(p, s[Consumed(p, s, cap)..])
    ensures |s| <= cap ==> Consumed(p, s, cap) == |s|
  {
    hide NextCp, Shaped;
    if |s| == 0 || cap == 0 {
    } else {
      var d := NextCp(p, s).used;
      DecodeResumes(p, s[d..], cap - 1);
      DropDrop(s, d, Consumed(p, s[d..], cap - 1));
    }
  }

  lemma CpStepAt(p: CpPage, s: seq<byte>, i: nat, cap: nat)
    requires Shaped(p) && i < |s| && cap > 0
    ensures var r := NextCp(p, s[i..]);
            && i + r.used <= |s|
            && FirstUnits(p, s[i..], cap) == [r.u] + FirstUnits(p, s[i + r.used..], cap - 1)
            && Consumed(p, s[i..], cap) == r.used + Consumed(p, s[i + r.used..], cap - 1)
  {
    DropDrop(s, i, NextCp(p, s[i..]).used);
  }

  lemma CpStop(p: CpPage, s: seq<byte>, cap: nat)
    requires Shaped(p) && (s == [] || cap == 0)
    ensures FirstUnits(p, s, cap) == [] && Consumed(p, s, cap) == 0
  {}

  method CpDecode(p: CpPage, mb: seq<byte>, out: array<unit>, outCap: nat)
    returns (n: nat, lossy: bool, consumed: nat)
    requires Shaped(p) && outCap <= out.Length
    modifies out
    ensures n == |FirstUnits(p, mb, outCap)| <= outCap
    ensures out[..] == Overwrite(old(out[..]), 0, FirstUnits(p, mb, outCap))
    ensures lossy <==> REPLACEMENT in FirstUnits(p, mb, outCap)
    ensures consumed == Consumed(p, mb, outCap)
  {
    hide FirstUnits, Consumed, Overwrite;
    var i := 0;
    n, lossy := 0, false;
    ghost var buf, done: seq<unit> := out[..], [];
    ghost var text, taken := FirstUnits(p, mb, outCap), Consumed(p, mb, outCap);
    assert mb[0..] == mb;
    OverwriteNone(buf, 0);
    while i < |mb| && n < outCap
      invariant i <= |mb| && n == |done| <= outCap
      invariant text == done + FirstUnits(p, mb[i..], outCap - n)
      invariant taken == i + Consumed(p, mb[i..], outCap - n)
      invariant lossy <==> REPLACEMENT in done
      invariant out[..] == Overwrite(buf, 0, done)
    {
      CpStepAt(p, mb, i, outCap - n);
      ghost var at := i;
      var b := mb[i];
      var u: unit := 0;
      if p.isDbcs && p.lead[b] {
        if i + 1 >= |mb| {
          u, lossy, i := REPLACEMENT, true, i + 1;
        } else {
          var row, t := p.leadrow[b], mb[i + 1];
          u := p.dec2[row * 0x100 + t];
          if u == REPLACEMENT {
            lossy, i := true, i + 1;
          } else {
            i := i + 2;
          }
        }
      } else {
        u := p.dec1[b];
        if u == REPLACEMENT { lossy := true; }
        i := i + 1;
      }
      assert NextCp(p, mb[at..]) == CpStep(u, i - at);
      out[n] := u;
      OverwriteIs(Overwrite(buf, 0, done), n, [u], out[..]);
      OverwriteTwice(buf, 0, done, [u]);
      Assoc(done, [u], FirstUnits(p, mb[i..], outCap - n - 1));
      done := done + [u];
      n := n + 1;
    }
    CpStop(p, mb[i..], outCap - n);
    assert text == done;
    consumed := i;
  }

  // ------------------------------------------------------------------
  // Encoding
  // ------------------------------------------------------------------

  /** The canonical byte sequence of a unit, or -1 when the page cannot represent it. */
  function Canonical(rev: seq<RevEntry>, cu: unit): (mb: int)
    ensures mb >= 0 ==> exists e :: e in rev && e.cu == cu && e.mb == mb
    ensures mb < 0 ==> mb == -1 && forall e <- rev :: e.cu != cu
  {
    if |rev| == 0 then -1
    else if rev[0].cu == cu then rev[0].mb
    else
      var r := Canonical(rev[1..], cu);
      assert rev == [rev[0]] + rev[1..];
      r
  }

  lemma CanonicalIs(rev: seq<RevEntry>, i: nat)
    requires Sorted(rev) && i < |rev|
    ensures Canonical(rev, rev[i].cu) == rev[i].mb
  {
    var mb := Canonical(rev, rev[i].cu);
    assert rev[i] in rev;
    var e :| e in rev && e.cu == rev[i].cu && e.mb == mb;
    var j :| 0 <= j < |rev| && rev[j] == e;
  }

  method RevLookup(p: CpPage, cu: unit) returns (mb: int)
    requires Sorted(p.rev)
    ensures mb == Canonical(p.rev, cu)
  {
    var lo, hi := 0, |p.rev| - 1;
    while lo <= hi
      invariant 0 <= lo <= hi + 1 <= |p.rev|
      invariant forall i :: 0 <= i < lo ==> p.rev[i].cu < cu
      invariant forall i :: hi < i < |p.rev| ==> cu < p.rev[i].cu
    {
      var midi := lo + (hi - lo) / 2;
      var midcu := p.rev[midi].cu;
      if midcu == cu {
        CanonicalIs(p.rev, midi);
        return p.rev[midi].mb;
      } else if midcu < cu {
        lo := midi + 1;
      } else {
        hi := midi - 1;
      }
    }
    return -1;
  }

  function BytesOf(mb: nat): (r: seq<byte>)
    ensures |r| == if mb > 0xFF then 2 else 1
  {
    if mb > 0xFF then [mb / 0x100 % 0x100, mb % 0x100] else [mb]
  }

  /** The bytes of the representable front of u, and where that front ends. */
  datatype Narrowed = Narrowed(bytes: seq<byte>, stop: nat)

  function Narrow(rev: seq<RevEntry>, u: seq<unit>): (r: Narrowed)
    ensures r.stop <= |u|
  {
    if |u| == 0 || Canonical(rev, u[0]) < 0 then Narrowed([], 0)
    else
      var rest := Narrow(rev, u[1..]);
      Narrowed(BytesOf(Canonical(rev, u[0])) + rest.bytes, 1 + rest.stop)
  }

  /** The front ends at the first unit the page cannot represent. */
  lemma {:induction false} NarrowStops(rev: seq<RevEntry>, u: seq<unit>)
    ensures forall i :: 0 <= i < Narrow(rev, u).stop ==> Canonical(rev, u[i]) >= 0
    ensures Narrow(rev, u).stop < |u| ==> Canonical(rev, u[Narrow(rev, u).stop]) < 0
  {
    if u != [] && Canonical(rev, u[0]) >= 0 {
      NarrowStops(rev, u[1..]);
      forall i | 0 <= i < Narrow(rev, u).stop ensures Canonical(rev, u[i]) >= 0 {
        if i > 0 { assert u[i] == u[1..][i - 1]; }
      }
    }
  }

  lemma NarrowAt(rev: seq<RevEntry>, u: seq<unit>, i: nat)
    requires i <= |u|
    ensures i == |u| ==> Narrow(rev, u[i..]) == Narrowed([], 0)
    ensures i < |u| && Canonical(rev, u[i]) < 0 ==> Narrow(rev, u[i..]) == Narrowed([], 0)
    ensures i < |u| && Canonical(rev, u[i]) >= 0 ==>
              var rest := Narrow(rev, u[i + 1..]);
              Narrow(rev, u[i..]) == Narrowed(BytesOf(Canonical(rev, u[i])) + rest.bytes, 1 + rest.stop)
  {
    if i < |u| {
      assert u[i..][0] == u[i];
      DropDrop(u, i, 1);
    }
  }

  /**
    Strict encoding: the whole text or nothing. Overflow is noticed before a
    later unit is found unrepresentable.
   */
  method CpEncode(p: CpPage, units: seq<unit>, out: array<byte>, outCap: nat) returns (n: int, rejectAt: int)
    requires Sorted(p.rev) && outCap <= out.Length
    modifies out
    ensures var r := Narrow(p.rev, units);
            if |r.bytes| > outCap then n == -2 && rejectAt == -1
            else if r.stop < |units| then n == -1 && rejectAt == r.stop
            else n == |r.bytes| && rejectAt == -1 && out[..] == Overwrite(old(out[..]), 0, r.bytes)
  {
    hide *;
    n, rejectAt := 0, -1;
    ghost var r := Narrow(p.rev, units);
    ghost var buf, done: seq<byte> := out[..], [];
    OverwriteNone(buf, 0);
    assert units[0..] == units;
    var i := 0;
    while i < |units|
      invariant i <= |units| && n == |done| <= outCap && rejectAt == -1
      invariant r.bytes == done + Narrow(p.rev, units[i..]).bytes
      invariant r.stop == i + Narrow(p.rev, units[i..]).stop
      invariant out[..] == Overwrite(buf, 0, done)
    {
      NarrowAt(p.rev, units, i);
      var mb := RevLookup(p, units[i]);
      if mb < 0 {
        return -1, i;
      }
      var text := BytesOf(mb);
      Assoc(done, text, Narrow(p.rev, units[i + 1..]).bytes);
      if n + |text| > outCap {
        return -2, -1;
      }
      out[n] := text[0];
      if mb > 0xFF { out[n + 1] := text[1]; }
      OverwriteIs(Overwrite(buf, 0, done), n, text, out[..]);
      OverwriteTwice(buf, 0, done, text);
      done := done + text;
      n := n + |text|;
      i := i + 1;
    }
    NarrowAt(p.rev, units, |units|);
    assert r.bytes == done;
  }

  /** Representable is what the strict encoder takes whole, whatever the room. */
  method CpRepresentable(p: CpPage, units: seq<unit>) returns (ok: bool)
    requires Sorted(p.rev)
    ensures ok <==> Narrow(p.rev, units).stop == |units|
  {
    hide *;
    assert units[0..] == units;
    var i := 0;
    while i < |units|
      invariant i <= |units| && Narrow(p.rev, units).stop == i + Narrow(p.rev, units[i..]).stop
    {
      NarrowAt(p.rev, units, i);
      var mb := RevLookup(p, units[i]);
      if mb < 0 { return false; }
      i := i + 1;
    }
    NarrowAt(p.rev, units, |units|);
    ok := true;
  }
}
