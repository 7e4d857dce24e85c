/**
  The decoder of src/encoding.c, UTF-8 bytes to UTF-16 units: total on arbitrary
  bytes, with one U+FFFD for each maximal subpart of an ill-formed sequence.
 */
module Utf8 {
  import opened Text
  import opened Utf16

  predicate Continuation(b: byte) { 0x80 <= b <= 0xBF }

  // ------------------------------------------------------------------
  // Table 3-7 of the Unicode Standard, section 3.9
  // ------------------------------------------------------------------

  /** w is one row of Table 3-7: a well-formed sequence for one scalar value. */
  predicate Sequence(w: seq<byte>) {
    || (|w| == 1 && w[0] <= 0x7F)
    || (|w| == 2 && 0xC2 <= w[0] <= 0xDF && Continuation(w[1]))
    || (|w| == 3 && Second3(w[0], w[1]) && Continuation(w[2]))
    || (|w| == 4 && Second4(w[0], w[1]) && Continuation(w[2]) && Continuation(w[3]))
  }

  predicate Second3(b0: byte, b1: byte) {
    || (b0 == 0xE0 && 0xA0 <= b1 <= 0xBF)
    || (0xE1 <= b0 <= 0xEC && 0x80 <= b1 <= 0xBF)
    || (b0 == 0xED && 0x80 <= b1 <= 0x9F)
    || (0xEE <= b0 <= 0xEF && 0x80 <= b1 <= 0xBF)
  }

  predicate Second4(b0: byte, b1: byte) {
    || (b0 == 0xF0 && 0x90 <= b1 <= 0xBF)
    || (0xF1 <= b0 <= 0xF3 && 0x80 <= b1 <= 0xBF)
    || (b0 == 0xF4 && 0x80 <= b1 <= 0x8F)
  }

  /** p begins some well-formed sequence. */
  ghost predicate Initial(p: seq<byte>) {
    exists w: seq<byte> :: Sequence(w) && p <= w
  }

  /** The maximal subpart of s is its first k bytes (definition D93b of section 3.9). */
  ghost predicate MaximalSubpart(s: seq<byte>, k: nat) {
    && 1 <= k <= |s|
    && (k == 1 || Initial(s[..k]))
    && forall j :: k < j <= |s| ==> !Initial(s[..j])
  }

  /** s is a run of well-formed sequences. */
  ghost predicate WellFormed8(s: seq<byte>)
    decreases |s|
  {
    s == [] || exists k :: 1 <= k <= |s| && Sequence(s[..k]) && WellFormed8(s[k..])
  }

  // ------------------------------------------------------------------
  // The decoder
  // ------------------------------------------------------------------

  /** What the lead byte says: total length, bounds of the second byte, first bits of the value. */
  datatype Row = Row(len: nat, lo: byte, hi: byte, bits: nat)

  /** A length of 0 marks a byte that leads nothing. */
  function LeadRow(b: byte): (r: Row)
    ensures r.len <= 4 && r.len != 1 && 0x80 <= r.lo && r.hi <= 0xBF
  {
    if 0xC2 <= b <= 0xDF then Row(2, 0x80, 0xBF, b % 0x20)
    else if b == 0xE0 then Row(3, 0xA0, 0xBF, b % 0x10)
    else if 0xE1 <= b <= 0xEC then Row(3, 0x80, 0xBF, b % 0x10)
    else if b == 0xED then Row(3, 0x80, 0x9F, b % 0x10)
    else if 0xEE <= b <= 0xEF then Row(3, 0x80, 0xBF, b % 0x10)
    else if b == 0xF0 then Row(4, 0x90, 0xBF, b % 0x08)
    else if 0xF1 <= b <= 0xF3 then Row(4, 0x80, 0xBF, b % 0x08)
    else if b == 0xF4 then Row(4, 0x80, 0x8F, b % 0x08)
    else Row(0, 0x80, 0xBF, 0)
  }

  /** The bytes at the front of s that the row permits, counting the lead. */
  function Permitted(s: seq<byte>, row: Row): (k: nat)
    requires |s| > 0 && 2 <= row.len <= 4
    ensures 1 <= k <= row.len && k <= |s|
  {
    if !(|s| > 1 && row.lo <= s[1] <= row.hi) then 1
    else if row.len == 2 || !(|s| > 2 && Continuation(s[2])) then 2
    else if row.len == 3 || !(|s| > 3 && Continuation(s[3])) then 3
    else 4
  }

  /** The value gathered from the first k bytes. */
  function Value(s: seq<byte>, row: Row, k: nat): nat
    requires 1 <= k <= |s|
  {
    if k == 1 then row.bits else Value(s, row, k - 1) * 0x40 + s[k - 1] as int % 0x40
  }

  function UnitsOf(c: codepoint): (r: seq<unit>)
    ensures 1 <= |r| <= 2
  {
    if c <= 0xFFFF then [c]
    else [0xD800 + (c - 0x10000) / 0x400, 0xDC00 + (c - 0x10000) % 0x400]
  }

  datatype Step8 = Step8(units: seq<unit>, used: nat, lossy: bool)

  lemma TwoDigits(x: nat, y: nat)
    requires 2 <= x < 0x20 && y < 0x40
    ensures EncodeScalar(x * 0x40 + y) == [0xC0 + x, 0x80 + y]
  {
    assert (x * 0x40 + y) / 0x40 == x && (x * 0x40 + y) % 0x40 == y;
  }

  lemma ThreeDigits(x: nat, y: nat, z: nat)
    requires x < 0x10 && y < 0x40 && z < 0x40 && 0x20 <= x * 0x40 + y
    ensures EncodeScalar((x * 0x40 + y) * 0x40 + z) == [0xE0 + x, 0x80 + y, 0x80 + z]
  {
    var c := (x * 0x40 + y) * 0x40 + z;
    assert c / 0x1000 == x && c / 0x40 == x * 0x40 + y && c % 0x40 == z;
  }

  lemma FourDigits(x: nat, y: nat, z: nat, w: nat)
    requires y < 0x40 && z < 0x40 && w < 0x40 && 0x10 <= x * 0x40 + y < 0x110
    ensures EncodeScalar(((x * 0x40 + y) * 0x40 + z) * 0x40 + w) == [0xF0 + x, 0x80 + y, 0x80 + z, 0x80 + w]
  {
    var c := ((x * 0x40 + y) * 0x40 + z) * 0x40 + w;
    assert c / 0x40000 == x && c / 0x1000 == x * 0x40 + y;
    assert c / 0x40 == (x * 0x40 + y) * 0x40 + z && c % 0x40 == w;
  }

  lemma LeadDigit(b: byte)
    ensures var row := LeadRow(b);
            && (row.len == 2 ==> b == 0xC0 + row.bits && 2 <= row.bits < 0x20)
            && (row.len == 3 ==> b == 0xE0 + row.bits && row.bits < 0x10)
            && (row.len == 4 ==> b == 0xF0 + row.bits && row.bits < 0x08)
  {}

  /** A permitted sequence encodes the value gathered from it. */
  lemma ValueRange(s: seq<byte>)
    requires |s| > 0 && LeadRow(s[0]).len > 0 && Permitted(s, LeadRow(s[0])) == LeadRow(s[0]).len
    ensures var row := LeadRow(s[0]);
            Value(s, row, row.len) <= 0x10FFFF
            && IsScalar(Value(s, row, row.len))
            && EncodeScalar(Value(s, row, row.len)) == s[..row.len]
  {
    var row := LeadRow(s[0]);
    LeadDigit(s[0]);
    match row.len
    case 2 => ValueRange2(s, row);
    case 3 => ValueRange3(s, row);
    case _ => ValueRange4(s, row);
  }

  lemma ValueRange2(s: seq<byte>, row: Row)
    requires |s| >= 2 && s[0] == 0xC0 + row.bits && 2 <= row.bits < 0x20 && Continuation(s[1])
    ensures Value(s, row, 2) <= 0x7FF && EncodeScalar(Value(s, row, 2)) == s[..2]
  {
    hide EncodeScalar;
    var y := s[1] as int % 0x40;
    assert Value(s, row, 2) == row.bits * 0x40 + y;
    TwoDigits(row.bits, y);
  }

  lemma ValueRange3(s: seq<byte>, row: Row)
    requires |s| >= 3 && s[0] == 0xE0 + row.bits && row.bits < 0x10 && Continuation(s[1]) && Continuation(s[2])
    requires row.bits == 0 ==> s[1] >= 0xA0
    requires row.bits == 0xD ==> s[1] <= 0x9F
    ensures Value(s, row, 3) <= 0xFFFF && IsScalar(Value(s, row, 3)) && EncodeScalar(Value(s, row, 3)) == s[..3]
  {
    hide EncodeScalar;
    var y, z := s[1] as int % 0x40, s[2] as int % 0x40;
    assert Value(s, row, 2) == row.bits * 0x40 + y;
    ThreeDigits(row.bits, y, z);
  }

  lemma ValueRange4(s: seq<byte>, row: Row)
    requires |s| >= 4 && s[0] == 0xF0 + row.bits && row.bits <= 4
    requires Continuation(s[1]) && Continuation(s[2]) && Continuation(s[3])
    requires row.bits == 0 ==> s[1] >= 0x90
    requires row.bits == 4 ==> s[1] <= 0x8F
    ensures 0x10000 <= Value(s, row, 4) <= 0x10FFFF && EncodeScalar(Value(s, row, 4)) == s[..4]
  {
    hide EncodeScalar;
    var y, z, w := s[1] as int % 0x40, s[2] as int % 0x40, s[3] as int % 0x40;
    assert Value(s, row, 2) == row.bits * 0x40 + y;
    assert Value(s, row, 3) == (row.bits * 0x40 + y) * 0x40 + z;
    FourDigits(row.bits, y, z, w);
  }

  function Next8(s: seq<byte>): (r: Step8)
    requires |s| > 0
    ensures 1 <= r.used <= |s| && 1 <= |r.units| <= 2
  {
    if s[0] <= 0x7F then Step8([s[0]], 1, false)
    else
      var row := LeadRow(s[0]);
      if row.len == 0 then Step8([REPLACEMENT], 1, true)
      else if Permitted(s, row) < row.len then Step8([REPLACEMENT], Permitted(s, row), true)
      else ValueRange(s); Step8(UnitsOf(Value(s, row, row.len)), row.len, false)
  }

  function Decode(s: seq<byte>): seq<unit> {
    if |s| == 0 then [] else Next8(s).units + Decode(s[Next8(s).used..])
  }

  /** No step of the decoder substitutes. */
  predicate Clean8(s: seq<byte>) {
    |s| == 0 || (!Next8(s).lossy && Clean8(s[Next8(s).used..]))
  }

  // ------------------------------------------------------------------
  // The decoder against the table
  // ------------------------------------------------------------------

  lemma SequenceLength(w: seq<byte>)
    requires Sequence(w)
    ensures |w| == 1 <==> w[0] <= 0x7F
    ensures |w| > 1 ==> LeadRow(w[0]).len == |w| && Permitted(w, LeadRow(w[0])) == |w|
  {}

  /** The permitted bytes begin a sequence of the table. */
  lemma PermittedIsInitial(s: seq<byte>)
    requires |s| > 0 && LeadRow(s[0]).len > 0
    ensures Initial(s[..Permitted(s, LeadRow(s[0]))])
  {
    var row := LeadRow(s[0]);
    var k := Permitted(s, row);
    var p := s[..k];
    var w: seq<byte> := match k
      case 1 => if row.len == 2 then p + [row.lo] else if row.len == 3 then p + [row.lo, 0x80] else p + [row.lo, 0x80, 0x80]
      case 2 => if row.len == 2 then p else if row.len == 3 then p + [0x80] else p + [0x80, 0x80]
      case 3 => if row.len == 3 then p else p + [0x80]
      case _ => p;
    assert Sequence(w) && p <= w;
  }

  /** No longer prefix begins one. */
  lemma InitialIsPermitted(s: seq<byte>, j: nat)
    requires 1 < j <= |s| && Initial(s[..j])
    ensures LeadRow(s[0]).len > 0 && s[0] > 0x7F && j <= Permitted(s, LeadRow(s[0]))
  {
    var w: seq<byte> :| Sequence(w) && s[..j] <= w;
    SequenceLength(w);
    assert forall i | 0 <= i < j :: w[i] == s[..j][i] && s[..j][i] == s[i];
    assert w[0] == s[0];
    assert w[1] == s[1];
    if j > 2 { assert w[2] == s[2]; }
    if j > 3 { assert w[3] == s[3]; }
  }

  lemma PermittedIsMaximal(s: seq<byte>)
    requires |s| > 0 && Next8(s).lossy
    ensures MaximalSubpart(s, Next8(s).used)
  {
    var k := Next8(s).used;
    if LeadRow(s[0]).len > 0 { PermittedIsInitial(s); }
    forall j | k < j <= |s| ensures !Initial(s[..j]) {
      if Initial(s[..j]) { InitialIsPermitted(s, j); }
    }
  }

  lemma SequenceIsClean(s: seq<byte>, k: nat)
    requires 1 <= k <= |s| && Sequence(s[..k])
    ensures !Next8(s).lossy && Next8(s).used == k
  {
    SequenceLength(s[..k]);
    assert s[..k][0] == s[0];
    if k > 1 {
      assert Permitted(s[..k], LeadRow(s[0])) == k;
    }
  }

  /**
    The decoder's step is the practice of section 3.9: a well-formed sequence
    becomes the units of the one scalar value it encodes, and anything else one
    U+FFFD for its maximal subpart.
   */
  lemma StepFollowsTable(s: seq<byte>)
    requires |s| > 0
    ensures var r := Next8(s);
            && (r.lossy <==> forall k :: 1 <= k <= |s| ==> !Sequence(s[..k]))
            && (!r.lossy ==> Sequence(s[..r.used]))
            && (!r.lossy ==> exists c: codepoint :: IsScalar(c) && EncodeScalar(c) == s[..r.used] && r.units == UnitsOf(c))
            && (r.lossy ==> MaximalSubpart(s, r.used) && r.units == [REPLACEMENT])
  {
    var r := Next8(s);
    if r.lossy {
      PermittedIsMaximal(s);
      forall k | 1 <= k <= |s| ensures !Sequence(s[..k]) {
        if Sequence(s[..k]) { SequenceIsClean(s, k); }
      }
    } else if s[0] <= 0x7F {
      assert EncodeScalar(s[0]) == s[..1] && UnitsOf(s[0]) == r.units;
      assert Sequence(s[..1]);
    } else {
      ValueRange(s);
      assert Sequence(s[..r.used]);
    }
  }

  /** The decoder reports loss exactly on text that is not a run of table sequences. */
  lemma {:induction false} CleanIsWellFormed8(s: seq<byte>)
    ensures Clean8(s) <==> WellFormed8(s)
    decreases |s|
  {
    if s != [] {
      StepFollowsTable(s);
      var d := Next8(s).used;
      CleanIsWellFormed8(s[d..]);
      if Clean8(s) {
        assert 1 <= d <= |s| && Sequence(s[..d]) && WellFormed8(s[d..]);
      }
      if WellFormed8(s) {
        var k :| 1 <= k <= |s| && Sequence(s[..k]) && WellFormed8(s[k..]);
        SequenceIsClean(s, k);
      }
    }
  }

  // ------------------------------------------------------------------
  // A limited output buffer
  // ------------------------------------------------------------------

  /** How many bytes are decoded, and what is written, into `cap` units. */
  function Fit8(s: seq<byte>, cap: nat): (k: nat)
    ensures k <= |s|
  {
    if |s| == 0 || |Next8(s).units| > cap then 0
    else Next8(s).used + Fit8(s[Next8(s).used..], cap - |Next8(s).units|)
  }

  function Written8(s: seq<byte>, cap: nat): (r: seq<unit>)
    ensures |r| <= cap
  {
    if |s| == 0 || |Next8(s).units| > cap then []
    else Next8(s).units + Written8(s[Next8(s).used..], cap - |Next8(s).units|)
  }

  /** The decoder's own cuts: after each sequence and after each maximal subpart. */
  predicate Boundary8(s: seq<byte>, k: nat) {
    k <= |s| && (k == 0 || (Next8(s).used <= k && Boundary8(s[Next8(s).used..], k - Next8(s).used)))
  }

  lemma Next8OfPrefix(s: seq<byte>, k: nat)
    requires s != [] && Next8(s).used <= k <= |s|
    ensures Next8(s[..k]) == Next8(s)
  {
    var p := s[..k];
    assert p[0] == s[0];
    if s[0] > 0x7F && LeadRow(s[0]).len > 0 {
      var row := LeadRow(s[0]);
      assert Permitted(p, row) == Permitted(s, row);
      if Permitted(s, row) == row.len { ValueOfPrefix(s, row, k, row.len); }
    }
  }

  lemma {:induction false} ValueOfPrefix(s: seq<byte>, row: Row, k: nat, m: nat)
    requires 1 <= m <= k <= |s|
    ensures Value(s[..k], row, m) == Value(s, row, m)
  {
    if m > 1 { ValueOfPrefix(s, row, k, m - 1); }
  }

  lemma {:induction false} Written8IsDecodeOfFit(s: seq<byte>, cap: nat)
    ensures Boundary8(s, Fit8(s, cap))
    ensures Written8(s, cap) == Decode(s[..Fit8(s, cap)])
  {
    hide Next8, Decode;
    DecodeNone();
    if s != [] && |Next8(s).units| <= cap {
      var d := Next8(s).used;
      var k := Fit8(s, cap);
      Written8IsDecodeOfFit(s[d..], cap - |Next8(s).units|);
      Next8OfPrefix(s, k);
      assert s[..k][d..] == s[d..][..k - d];
      DecodeStep(s[..k]);
    }
  }

  lemma DecodeNone()
    ensures Decode([]) == []
  {}

  lemma DecodeStep(s: seq<byte>)
    requires s != []
    ensures Decode(s) == Next8(s).units + Decode(s[Next8(s).used..])
  {}

  /** No longer run of whole steps would fit. */
  lemma {:induction false} Fit8IsLongest(s: seq<byte>, cap: nat, j: nat)
    requires Boundary8(s, j) && Fit8(s, cap) < j
    ensures |Decode(s[..j])| > cap
  {
    hide Next8, Decode;
    var d := Next8(s).used;
    Next8OfPrefix(s, j);
    DecodeStep(s[..j]);
    if |Next8(s).units| <= cap {
      assert s[..j][d..] == s[d..][..j - d];
      Fit8IsLongest(s[d..], cap - |Next8(s).units|, j - d);
    }
  }

  lemma {:induction false} Fit8Complete(s: seq<byte>, cap: nat)
    ensures Fit8(s, cap) == |s| <==> |Decode(s)| <= cap
  {
    if s != [] {
      var d := Next8(s).used;
      if |Next8(s).units| <= cap { Fit8Complete(s[d..], cap - |Next8(s).units|); }
    }
  }

  /** One turn of the decoder's loop. */
  lemma WrittenStep8(s: seq<byte>, i: nat, room: nat, step: Step8)
    requires i < |s| && step == Next8(s[i..])
    ensures i + step.used <= |s|
    ensures Clean8(s[i..]) <==> !step.lossy && Clean8(s[i + step.used..])
    ensures Decode(s[i..]) == step.units + Decode(s[i + step.used..])
    ensures Written8(s[i..], room) ==
            if |step.units| > room then []
            else step.units + Written8(s[i + step.used..], room - |step.units|)
  {
    DropDrop(s, i, step.used);
  }

  lemma WrittenEnd8(s: seq<byte>, room: nat)
    ensures s[|s|..] == [] && Clean8(s[|s|..]) && Decode(s[|s|..]) == [] && Written8(s[|s|..], room) == []
    ensures s[0..] == s
  {}

  /** Lead classification and the continuation loop: the step at position i. */
  method ReadBytes(s: seq<byte>, i: nat) returns (units: seq<unit>, used: nat, lossy: bool)
    requires i < |s|
    ensures Step8(units, used, lossy) == Next8(s[i..])
  {
    ghost var rest := s[i..];
    var b0 := s[i];
    if b0 <= 0x7F {
      return [b0], 1, false;
    }
    var row := LeadRow(b0);
    if row.len == 0 {
      return [REPLACEMENT], 1, true;
    }
    var k, cp := 1, row.bits;
    while k < row.len
      invariant 1 <= k <= row.len && i + k <= |s| && k <= Permitted(rest, row)
      invariant cp == Value(rest, row, k)
    {
      var lo := if k == 1 then row.lo else 0x80;
      var hi := if k == 1 then row.hi else 0xBF;
      if i + k >= |s| || s[i + k] < lo || s[i + k] > hi {
        return [REPLACEMENT], k, true;
      }
      cp := cp * 0x40 + s[i + k] as int % 0x40;
      k := k + 1;
    }
    ValueRange(rest);
    if cp <= 0xFFFF {
      return [cp], row.len, false;
    }
    var v := cp - 0x10000;
    return [0xD800 + v / 0x400, 0xDC00 + v % 0x400], row.len, false;
  }

  /** One unit, or both halves of a pair. */
  method PutUnits(out: array<unit>, at: nat, units: seq<unit>)
    requires 1 <= |units| <= 2 && at + |units| <= out.Length
    modifies out
    ensures out[..] == Overwrite(old(out[..]), at, units)
  {
    hide Overwrite;
    ghost var buf := out[..];
    out[at] := units[0];
    if |units| == 2 { out[at + 1] := units[1]; }
    OverwriteIs(buf, at, units, out[..]);
  }

  method Utf8ToUtf16(bytes: seq<byte>, out: array<unit>, outCap: nat) returns (n: nat, st: Status)
    requires outCap <= out.Length
    modifies out
    ensures n == |Written8(bytes, outCap)|
    ensures out[..] == Overwrite(old(out[..]), 0, Written8(bytes, outCap))
    ensures st == if |Decode(bytes)| > outCap then Truncated else if Clean8(bytes) then Fine else Lossy
  {
    hide *;
    n, st := 0, Fine;
    var i := 0;
    ghost var buf, done: seq<unit> := out[..], [];
    ghost var text, whole, clean := Written8(bytes, outCap), Decode(bytes), Clean8(bytes);
    WrittenEnd8(bytes, outCap);
    OverwriteNone(buf, 0);
    while i < |bytes|
      invariant i <= |bytes| && n == |done| <= outCap
      invariant text == done + Written8(bytes[i..], outCap - n)
      invariant whole == done + Decode(bytes[i..])
      invariant st == Fine || st == Lossy
      invariant clean <==> st == Fine && Clean8(bytes[i..])
      invariant out[..] == Overwrite(buf, 0, done)
    {
      var units, used, lossy := ReadBytes(bytes, i);
      WrittenStep8(bytes, i, outCap - n, Step8(units, used, lossy));
      if n + |units| > outCap {
        st := Truncated;
        assert text == done;
        return;
      }
      PutUnits(out, n, units);
      OverwriteTwice(buf, 0, done, units);
      if lossy { st := Lossy; }
      i := i + used;
      Assoc(done, units, Decode(bytes[i..]));
      Assoc(done, units, Written8(bytes[i..], outCap - (n + |units|)));
      done := done + units;
      n := n + |units|;
    }
    WrittenEnd8(bytes, outCap - n);
    assert text == done && whole == done;
  }
}
