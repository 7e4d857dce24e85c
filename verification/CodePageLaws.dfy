/**
  Round trips over every page with sound tables.
 */
module CodePageLaws {
  import opened Text
  import opened CodePages

  lemma CanonicalIsLowest(p: CpPage, mb: nat)
    requires Sound(p) && Defined(p, mb)
    ensures var c := Canonical(p.rev, Forward(p, mb));
            0 <= c <= mb && Defined(p, c) && Forward(p, c) == Forward(p, mb)
  {
    var e :| e in p.rev && e.cu == Forward(p, mb) && e.mb <= mb;
    var i :| 0 <= i < |p.rev| && p.rev[i] == e;
    CanonicalIs(p.rev, i);
  }

  lemma CanonicalIsDefined(p: CpPage, cu: unit)
    requires Sound(p) && Canonical(p.rev, cu) >= 0
    ensures Defined(p, Canonical(p.rev, cu)) && Forward(p, Canonical(p.rev, cu)) == cu && cu != REPLACEMENT
  {}

  /** The decoder reads the bytes of one defined sequence as its unit, whatever follows. */
  lemma NextOfBytes(p: CpPage, mb: nat, rest: seq<byte>)
    requires Shaped(p) && Defined(p, mb)
    ensures NextCp(p, BytesOf(mb) + rest) == CpStep(Forward(p, mb), |BytesOf(mb)|)
  {
    var s := BytesOf(mb) + rest;
    assert s[0] == BytesOf(mb)[0];
    if mb > 0xFF { assert s[1] == BytesOf(mb)[1]; }
  }

  /** Decoding what a strict encode produced gives the text back, with nothing replaced. */
  lemma {:induction false} DecodeOfNarrow(p: CpPage, u: seq<unit>)
    requires Sound(p)
    ensures DecodeCp(p, Narrow(p.rev, u).bytes) == u[..Narrow(p.rev, u).stop]
    ensures REPLACEMENT !in u[..Narrow(p.rev, u).stop]
  {
    hide Sound, NextCp, BytesOf, Canonical;
    if u != [] && Canonical(p.rev, u[0]) >= 0 {
      var r, rest := Narrow(p.rev, u), Narrow(p.rev, u[1..]);
      var text := BytesOf(Canonical(p.rev, u[0]));
      DecodeOfNarrow(p, u[1..]);
      SoundIsShaped(p);
      CanonicalIsDefined(p, u[0]);
      NextOfBytes(p, Canonical(p.rev, u[0]), rest.bytes);
      assert r.bytes[|text|..] == rest.bytes;
      assert u[..r.stop] == [u[0]] + u[1..][..rest.stop];
    }
  }

  lemma SoundIsShaped(p: CpPage)
    requires Sound(p)
    ensures Shaped(p)
  {}

  // ------------------------------------------------------------------
  // Encoding what was decoded
  // ------------------------------------------------------------------

  /** The byte sequence the decoder reads first, as a number. */
  function FirstKey(p: CpPage, s: seq<byte>): nat
    requires Shaped(p) && s != []
  {
    if NextCp(p, s).used == 2 then s[0] as int * 0x100 + s[1] as int else s[0]
  }

  lemma PairOfBytes(a: byte, b: byte)
    ensures var mb := a as int * 0x100 + b as int;
            mb <= 0xFFFF && mb / 0x100 == a && mb % 0x100 == b && (a != 0 ==> BytesOf(mb) == [a, b])
  {}

  lemma OneByte(b: byte)
    ensures BytesOf(b) == [b]
  {}

  lemma LeadIsPositive(p: CpPage, b: byte, t: byte)
    requires Sound(p) && IsLead(p, b) && Trail(p, b, t) != REPLACEMENT
    ensures b > 0
  {}

  lemma FirstKeyIsDefined(p: CpPage, s: seq<byte>)
    requires Sound(p) && s != [] && NextCp(p, s).u != REPLACEMENT
    ensures Defined(p, FirstKey(p, s)) && Forward(p, FirstKey(p, s)) == NextCp(p, s).u
    ensures BytesOf(FirstKey(p, s)) == s[..NextCp(p, s).used]
  {
    hide BytesOf;
    if IsLead(p, s[0]) {
      PairOfBytes(s[0], s[1]);
      LeadIsPositive(p, s[0], s[1]);
      assert s[..2] == [s[0], s[1]];
    } else {
      assert BytesOf(s[0]) == [s[0]] == s[..1] by { OneByte(s[0]); }
    }
  }

  /** The byte sequences of s in order, up to the first loss. */
  function Keys(p: CpPage, s: seq<byte>): seq<nat>
    requires Shaped(p)
  {
    if |s| == 0 || NextCp(p, s).u == REPLACEMENT then []
    else [FirstKey(p, s)] + Keys(p, s[NextCp(p, s).used..])
  }

  function Flat(keys: seq<nat>): seq<byte> {
    if |keys| == 0 then [] else BytesOf(keys[0]) + Flat(keys[1..])
  }

  /** A lossless text is spelled by its byte sequences, one for each unit of its decode. */
  lemma {:induction false} KeysSpell(p: CpPage, s: seq<byte>)
    requires Sound(p) && REPLACEMENT !in DecodeCp(p, s)
    ensures Flat(Keys(p, s)) == s && |Keys(p, s)| == |DecodeCp(p, s)|
    ensures forall i :: 0 <= i < |Keys(p, s)| ==>
              Defined(p, Keys(p, s)[i]) && Forward(p, Keys(p, s)[i]) == DecodeCp(p, s)[i]
  {
    hide Sound, Shaped, NextCp, Defined, Forward, BytesOf, FirstKey;
    SoundIsShaped(p);
    if s != [] {
      var d := NextCp(p, s).used;
      assert NextCp(p, s).u == DecodeCp(p, s)[0];
      assert forall i :: 0 <= i < |DecodeCp(p, s[d..])| ==> DecodeCp(p, s[d..])[i] == DecodeCp(p, s)[i + 1];
      KeysSpell(p, s[d..]);
      FirstKeyIsDefined(p, s);
      assert Keys(p, s)[1..] == Keys(p, s[d..]);
      assert s == s[..d] + s[d..];
    }
  }

  /** mb is the lowest byte sequence that stands for cu. */
  ghost predicate Lowest(p: CpPage, mb: nat, cu: unit)
    requires Shaped(p)
  {
    Defined(p, mb) && Forward(p, mb) == cu && forall m: nat :: Defined(p, m) && Forward(p, m) == cu ==> mb <= m
  }

  function CanonicalKeys(rev: seq<RevEntry>, u: seq<unit>): seq<nat> {
    if |u| == 0 || Canonical(rev, u[0]) < 0 then []
    else [Canonical(rev, u[0])] + CanonicalKeys(rev, u[1..])
  }

  lemma CanonicalIsLowestFor(p: CpPage, cu: unit)
    requires Sound(p) && Canonical(p.rev, cu) >= 0
    ensures Lowest(p, Canonical(p.rev, cu), cu)
  {
    forall m: nat | Defined(p, m) && Forward(p, m) == cu ensures Canonical(p.rev, cu) <= m {
      CanonicalIsLowest(p, m);
    }
  }

  /** A strict encode spells each unit by its lowest byte sequence. */
  lemma {:induction false} NarrowIsLowest(p: CpPage, u: seq<unit>)
    requires Sound(p)
    ensures var ks := CanonicalKeys(p.rev, u);
            Flat(ks) == Narrow(p.rev, u).bytes && |ks| == Narrow(p.rev, u).stop
            && forall i :: 0 <= i < |ks| ==> Lowest(p, ks[i], u[i])
  {
    hide Sound, Lowest, BytesOf, Canonical, Shaped;
    SoundIsShaped(p);
    if u != [] && Canonical(p.rev, u[0]) >= 0 {
      CanonicalIsLowestFor(p, u[0]);
      NarrowIsLowest(p, u[1..]);
      var ks := CanonicalKeys(p.rev, u);
      assert ks[1..] == CanonicalKeys(p.rev, u[1..]);
      forall i | 0 <= i < |ks| ensures Lowest(p, ks[i], u[i]) {
        if i > 0 { assert ks[i] == ks[1..][i - 1] && u[i] == u[1..][i - 1]; }
      }
    }
  }

  lemma {:induction false} LowerIsNoLonger(a: seq<nat>, b: seq<nat>)
    requires |a| == |b| && forall i :: 0 <= i < |a| ==> a[i] <= b[i]
    ensures |Flat(a)| <= |Flat(b)|
  {
    if a != [] { LowerIsNoLonger(a[1..], b[1..]); }
  }

  /** Every unit of a decode is representable except the substitutions. */
  lemma DecodedUnitIsRepresentable(p: CpPage, u: unit, mb: nat)
    requires Sound(p) && Defined(p, mb) && Forward(p, mb) == u
    ensures Canonical(p.rev, u) >= 0
  {
    CanonicalIsLowest(p, mb);
  }

  lemma {:induction false} DecodedUnits(p: CpPage, s: seq<byte>, i: nat)
    requires Sound(p) && i < |DecodeCp(p, s)| && DecodeCp(p, s)[i] != REPLACEMENT
    ensures Canonical(p.rev, DecodeCp(p, s)[i]) >= 0
    decreases i
  {
    if i == 0 {
      FirstKeyIsDefined(p, s);
      DecodedUnitIsRepresentable(p, DecodeCp(p, s)[0], FirstKey(p, s));
    } else {
      hide Sound, NextCp, Canonical;
      SoundIsShaped(p);
      var rest := s[NextCp(p, s).used..];
      assert DecodeCp(p, s)[i] == DecodeCp(p, rest)[i - 1];
      DecodedUnits(p, rest, i - 1);
    }
  }

  lemma ReplacementIsRejected(p: CpPage)
    requires Sound(p)
    ensures Canonical(p.rev, REPLACEMENT) < 0
  {
    if Canonical(p.rev, REPLACEMENT) >= 0 { CanonicalIsDefined(p, REPLACEMENT); }
  }

  /** Strictly encoding any decode stops exactly at the first substitution, if there is one. */
  lemma NarrowOfDecodeStops(p: CpPage, s: seq<byte>)
    requires Sound(p)
    ensures var u := DecodeCp(p, s);
            var stop := Narrow(p.rev, u).stop;
            && REPLACEMENT !in u[..stop]
            && (stop < |u| ==> u[stop] == REPLACEMENT)
            && (stop == |u| <==> REPLACEMENT !in u)
  {
    hide Sound, Canonical;
    SoundIsShaped(p);
    var u := DecodeCp(p, s);
    var stop := Narrow(p.rev, u).stop;
    NarrowStops(p.rev, u);
    DecodeOfNarrow(p, u);
    ReplacementIsRejected(p);
    if stop < |u| {
      if u[stop] != REPLACEMENT { DecodedUnits(p, s, stop); }
    } else {
      assert u[..stop] == u;
    }
  }

  /**
    Re-encoding a lossless text writes each of its characters by the lowest byte
    sequence with the same meaning; the result is never longer, and re-encoding
    it again changes nothing.
   */
  lemma NarrowOfDecode(p: CpPage, s: seq<byte>)
    requires Sound(p) && REPLACEMENT !in DecodeCp(p, s)
    ensures var t := Narrow(p.rev, DecodeCp(p, s)).bytes;
            var was, now := Keys(p, s), CanonicalKeys(p.rev, DecodeCp(p, s));
            && s == Flat(was) && t == Flat(now) && |now| == |was|
            && (forall i :: 0 <= i < |was| ==> Defined(p, was[i]) && Lowest(p, now[i], Forward(p, was[i])))
            && |t| <= |s|
            && DecodeCp(p, t) == DecodeCp(p, s)
            && Narrow(p.rev, DecodeCp(p, t)).bytes == t
  {
    hide Sound, Canonical, Narrow, Keys, CanonicalKeys, DecodeCp, Flat, Forward, Shaped;
    SoundIsShaped(p);
    var u := DecodeCp(p, s);
    KeysSpell(p, s);
    NarrowIsLowest(p, u);
    NarrowOfDecodeStops(p, s);
    DecodeOfNarrow(p, u);
    assert u[..|u|] == u;
    var was, now := Keys(p, s), CanonicalKeys(p.rev, u);
    forall i | 0 <= i < |was| ensures Lowest(p, now[i], Forward(p, was[i])) && now[i] <= was[i] {
      assert Forward(p, was[i]) == u[i];
      assert Lowest(p, now[i], u[i]);
      assert Defined(p, was[i]) && Forward(p, was[i]) == u[i];
    }
    LowerIsNoLonger(now, was);
  }
}
