/**
  The encoder of src/encoding.c, UTF-16 units to UTF-8 bytes, over arbitrary
  input and any output capacity.

  Shifts and masks of the C source are written as division and remainder.
 */
module Utf16 {
  import opened Text

  // ------------------------------------------------------------------
  // UTF-16 to UTF-8
  // ------------------------------------------------------------------

  predicate IsHigh(u: unit) { 0xD800 <= u <= 0xDBFF }
  predicate IsLow(u: unit) { 0xDC00 <= u <= 0xDFFF }

  type codepoint = c: int | 0 <= c <= 0x10FFFF
  predicate IsScalar(c: codepoint) { !(0xD800 <= c <= 0xDFFF) }

  /** One step of the encoder: the code point read, the units used, whether it was a substitution. */
  datatype Step16 = Step16(cp: codepoint, used: nat, lossy: bool)

  function Next16(u: seq<unit>): (r: Step16)
    requires |u| > 0
    ensures 1 <= r.used <= 2 && r.used <= |u| && IsScalar(r.cp)
  {
    if IsHigh(u[0]) then
      if |u| > 1 && IsLow(u[1]) then
        Step16(0x10000 + (u[0] as int - 0xD800) * 0x400 + (u[1] as int - 0xDC00), 2, false)
      else
        Step16(REPLACEMENT, 1, true)
    else if IsLow(u[0]) then
      Step16(REPLACEMENT, 1, true)
    else
      Step16(u[0], 1, false)
  }

  /** The canonical length of a code point: no overlong forms. */
  function Utf8Length(cp: codepoint): (len: nat)
    ensures 1 <= len <= 4
  {
    if cp <= 0x7F then 1 else if cp <= 0x7FF then 2 else if cp <= 0xFFFF then 3 else 4
  }

  function EncodeScalar(c: codepoint): (r: seq<byte>)
    ensures |r| == Utf8Length(c)
  {
    if c <= 0x7F then [c]
    else if c <= 0x7FF then [0xC0 + c / 0x40, 0x80 + c % 0x40]
    else if c <= 0xFFFF then [0xE0 + c / 0x1000, 0x80 + c / 0x40 % 0x40, 0x80 + c % 0x40]
    else [0xF0 + c / 0x40000, 0x80 + c / 0x1000 % 0x40, 0x80 + c / 0x40 % 0x40, 0x80 + c % 0x40]
  }

  /** What the encoder writes when nothing limits it. */
  function Encode(u: seq<unit>): seq<byte> {
    if |u| == 0 then [] else EncodeScalar(Next16(u).cp) + Encode(u[Next16(u).used..])
  }

  /** A surrogate at position i with no partner beside it. */
  predicate UnpairedAt(u: seq<unit>, i: nat)
    requires i < |u|
  {
    || (IsHigh(u[i]) && !(i + 1 < |u| && IsLow(u[i + 1])))
    || (IsLow(u[i]) && !(0 < i && IsHigh(u[i - 1])))
  }

  ghost predicate WellFormed16(u: seq<unit>) {
    forall i :: 0 <= i < |u| ==> !UnpairedAt(u, i)
  }

  /** No step of the encoder substitutes. */
  predicate Clean16(u: seq<unit>) {
    |u| == 0 || (!Next16(u).lossy && Clean16(u[Next16(u).used..]))
  }

  /** A cut at k does not separate a high surrogate from the low one after it. */
  predicate Boundary16(u: seq<unit>, k: nat) {
    k <= |u| && !(0 < k < |u| && IsHigh(u[k - 1]) && IsLow(u[k]))
  }

  /** How many units are encoded, and what is written, into `cap` bytes. */
  function Fit16(u: seq<unit>, cap: nat): (k: nat)
    ensures k <= |u|
  {
    if |u| == 0 || Utf8Length(Next16(u).cp) > cap then 0
    else Next16(u).used + Fit16(u[Next16(u).used..], cap - Utf8Length(Next16(u).cp))
  }

  function Written16(u: seq<unit>, cap: nat): (r: seq<byte>)
    ensures |r| <= cap
  {
    if |u| == 0 || Utf8Length(Next16(u).cp) > cap then []
    else EncodeScalar(Next16(u).cp) + Written16(u[Next16(u).used..], cap - Utf8Length(Next16(u).cp))
  }

  /** One turn of the encoder's loop: what was left to write, and what still is. */
  lemma WrittenStep(u: seq<unit>, i: nat, room: nat, step: Step16)
    requires i < |u| && step == Next16(u[i..])
    ensures i + step.used <= |u|
    ensures Clean16(u[i..]) <==> !step.lossy && Clean16(u[i + step.used..])
    ensures Encode(u[i..]) == EncodeScalar(step.cp) + Encode(u[i + step.used..])
    ensures Written16(u[i..], room) ==
            if Utf8Length(step.cp) > room then []
            else EncodeScalar(step.cp) + Written16(u[i + step.used..], room - Utf8Length(step.cp))
  {
    DropDrop(u, i, step.used);
  }

  lemma WrittenEnd(u: seq<unit>, room: nat)
    ensures u[|u|..] == [] && Clean16(u[|u|..]) && Encode(u[|u|..]) == [] && Written16(u[|u|..], room) == []
    ensures u[0..] == u
  {}

  /** The step at the front of u is the step at the front of any cut of u on a boundary. */
  lemma Next16OfPrefix(u: seq<unit>, k: nat)
    requires 0 < k && Boundary16(u, k)
    ensures Next16(u).used <= k && Next16(u[..k]) == Next16(u)
    ensures Boundary16(u[Next16(u).used..], k - Next16(u).used)
  {}

  /** Text may be joined anywhere but between the halves of a pair. */
  predicate Joinable16(a: seq<unit>, b: seq<unit>) {
    a == [] || b == [] || !(IsHigh(a[|a| - 1]) && IsLow(b[0]))
  }

  lemma NextOfJoin(a: seq<unit>, b: seq<unit>)
    requires a != [] && Joinable16(a, b)
    ensures Next16(a + b) == Next16(a) && Joinable16(a[Next16(a).used..], b)
  {
    assert (a + b)[0] == a[0];
    if |a| > 1 {
      assert (a + b)[1] == a[1];
    } else if |b| > 0 {
      assert (a + b)[1] == b[0];
    } else {
      assert a + b == a;
    }
  }

  lemma {:induction false} EncodeJoins(a: seq<unit>, b: seq<unit>)
    requires Joinable16(a, b)
    ensures Encode(a + b) == Encode(a) + Encode(b)
  {
    hide *;
    if |a| == 0 {
      assert a + b == b;
      EncodeNone();
      assert a == [];
    } else {
      NextOfJoin(a, b);
      var d := Next16(a).used;
      EncodeStep(a);
      EncodeStep(a + b);
      assert (a + b)[d..] == a[d..] + b;
      EncodeJoins(a[d..], b);
      Assoc(EncodeScalar(Next16(a).cp), Encode(a[d..]), Encode(b));
    }
  }

  lemma EncodeStep(u: seq<unit>)
    requires u != []
    ensures Encode(u) == EncodeScalar(Next16(u).cp) + Encode(u[Next16(u).used..])
  {}

  lemma EncodeNone()
    ensures Encode([]) == []
  {}

  lemma {:induction false} Written16IsEncodeOfFit(u: seq<unit>, cap: nat)
    ensures Boundary16(u, Fit16(u, cap))
    ensures Written16(u, cap) == Encode(u[..Fit16(u, cap)])
  {
    hide EncodeScalar, Encode, Utf8Length, Next16, Boundary16;
    EncodeNone();
    BoundaryStart(u);
    if u != [] && Utf8Length(Next16(u).cp) <= cap {
      var d := Next16(u).used;
      var room := cap - Utf8Length(Next16(u).cp);
      var k := Fit16(u, cap);
      Written16IsEncodeOfFit(u[d..], room);
      FitBoundary(u, k);
      Next16OfPrefix(u, k);
      assert k == d + Fit16(u[d..], room);
      assert u[..k][d..] == u[d..][..k - d];
      EncodeStep(u[..k]);
    }
  }

  lemma BoundaryStart(u: seq<unit>)
    ensures Boundary16(u, 0) && u[..0] == []
  {}

  lemma FitBoundary(u: seq<unit>, k: nat)
    requires u != [] && Next16(u).used <= k && Boundary16(u[Next16(u).used..], k - Next16(u).used)
    ensures Boundary16(u, k)
  {
    var d := Next16(u).used;
    if d < k < |u| { assert u[k - 1] == u[d..][k - d - 1] && u[k] == u[d..][k - d]; }
  }

  /**
    Truncation is the longest clean prefix: what is written encodes a prefix
    that splits no pair, and no longer such prefix would fit.
   */
  lemma {:induction false} FitIsLongest(u: seq<unit>, cap: nat, j: nat)
    requires Boundary16(u, j) && Fit16(u, cap) < j
    ensures |Encode(u[..j])| > cap
  {
    var s := Next16(u);
    Next16OfPrefix(u, j);
    if Utf8Length(s.cp) > cap {
    } else {
      assert u[..j][s.used..] == u[s.used..][..j - s.used];
      FitIsLongest(u[s.used..], cap - Utf8Length(s.cp), j - s.used);
    }
  }

  lemma PrefixJoins(u: seq<unit>, i: nat, j: nat)
    requires i <= j <= |u| && Joinable16(u[..i], u[i..j])
    ensures Encode(u[..j]) == Encode(u[..i]) + Encode(u[i..j])
  {
    hide Encode, Joinable16;
    EncodeJoins(u[..i], u[i..j]);
    assert u[..i] + u[i..j] == u[..j];
  }

  lemma LoneHigh(h: unit)
    requires IsHigh(h)
    ensures |Encode([h])| == 3
  {
    assert [h][1..] == [];
    EncodeStep([h]);
    EncodeNone();
  }

  predicate PairAt(u: seq<unit>, k: nat) { k + 1 < |u| && IsHigh(u[k]) && IsLow(u[k + 1]) }

  /**
    Boundaries matter above: a longer prefix would fit exactly when a surrogate pair
    comes next and three bytes are left, the room for a substitution of its first half.
   */
  lemma LongerPrefixFits(u: seq<unit>, cap: nat)
    ensures (exists j :: Fit16(u, cap) < j <= |u| && |Encode(u[..j])| <= cap)
            <==> PairAt(u, Fit16(u, cap)) && |Written16(u, cap)| + 3 <= cap
  {
    hide Encode, Fit16, Written16;
    var k := Fit16(u, cap);
    Written16IsEncodeOfFit(u, cap);
    if PairAt(u, k) {
      PrefixJoins(u, k, k + 1);
      assert u[k..k + 1] == [u[k]];
      LoneHigh(u[k]);
    }
    forall j | k < j <= |u| && |Encode(u[..j])| <= cap ensures PairAt(u, k) && j == k + 1 {
      if Boundary16(u, j) { FitIsLongest(u, cap, j); }
      if k < j - 1 {
        FitIsLongest(u, cap, j - 1);
        PrefixJoins(u, j - 1, j);
      }
    }
  }

  /** The least case: one pair and three bytes; its first half would fit as a substitution, and nothing is written. */
  lemma SplitPairWouldFit()
    ensures var u: seq<unit> := [0xD83D, 0xDE00];
            |Encode(u[..1])| <= 3 && Written16(u, 3) == [] && Fit16(u, 3) == 0
  {
    var u: seq<unit> := [0xD83D, 0xDE00];
    assert u[..1] == [0xD83D];
    assert Encode([0xD83D as unit][1..]) == [];
  }

  /** Substitution happens exactly on text with an unpaired surrogate. */
  lemma {:induction false} CleanIsWellFormed16(u: seq<unit>)
    ensures Clean16(u) <==> WellFormed16(u)
  {
    if u != [] {
      var d := Next16(u).used;
      CleanIsWellFormed16(u[d..]);
      forall i | d <= i < |u|
        ensures UnpairedAt(u, i) <==> UnpairedAt(u[d..], i - d)
      {}
      if WellFormed16(u) {
        assert !UnpairedAt(u, 0);
        forall i | 0 <= i < |u[d..]| ensures !UnpairedAt(u[d..], i) {
          assert !UnpairedAt(u, i + d);
        }
      } else if !Next16(u).lossy {
        var i :| 0 <= i < |u| && UnpairedAt(u, i);
        assert d <= i && UnpairedAt(u[d..], i - d);
      }
    }
  }

  /** The surrogate branches: the code point at i, the units it takes. */
  method ReadUnits(units: seq<unit>, i: nat) returns (cp: codepoint, used: nat, lossy: bool)
    requires i < |units|
    ensures Step16(cp, used, lossy) == Next16(units[i..])
  {
    var u: int := units[i];
    used, lossy := 1, false;
    if 0xD800 <= u && u <= 0xDBFF {
      if i + 1 < |units| && units[i + 1] >= 0xDC00 && units[i + 1] <= 0xDFFF {
        var lo: int := units[i + 1];
        cp, used := 0x10000 + (u - 0xD800) * 0x400 + (lo - 0xDC00), 2;
      } else {
        cp, lossy := REPLACEMENT, true;
      }
    } else if 0xDC00 <= u && u <= 0xDFFF {
      cp, lossy := REPLACEMENT, true;
    } else {
      cp := u;
    }
  }

  /** The switch on the length of one code point. */
  method PutScalar(out: array<byte>, at: nat, cp: codepoint)
    requires at + Utf8Length(cp) <= out.Length
    modifies out
    ensures out[..] == Overwrite(old(out[..]), at, EncodeScalar(cp))
  {
    if cp <= 0x7F {
      out[at] := cp;
    } else if cp <= 0x7FF {
      out[at] := 0xC0 + cp / 0x40;
      out[at + 1] := 0x80 + cp % 0x40;
    } else if cp <= 0xFFFF {
      out[at] := 0xE0 + cp / 0x1000;
      out[at + 1] := 0x80 + cp / 0x40 % 0x40;
      out[at + 2] := 0x80 + cp % 0x40;
    } else {
      out[at] := 0xF0 + cp / 0x40000;
      out[at + 1] := 0x80 + cp / 0x1000 % 0x40;
      out[at + 2] := 0x80 + cp / 0x40 % 0x40;
      out[at + 3] := 0x80 + cp % 0x40;
    }
  }

  method Utf16ToUtf8(units: seq<unit>, out: array<byte>, off: nat, outCap: nat)
    returns (n: nat, st: Status)
    requires off + outCap <= out.Length
    modifies out
    ensures n == |Written16(units, outCap)|
    ensures out[..] == Overwrite(old(out[..]), off, Written16(units, outCap))
    ensures st == if |Encode(units)| > outCap then Truncated else if Clean16(units) then Fine else Lossy
  {
    hide *;
    n, st := 0, Fine;
    var i := 0;
    ghost var buf, done: seq<byte> := out[..], [];
    ghost var text, whole, clean := Written16(units, outCap), Encode(units), Clean16(units);
    WrittenEnd(units, outCap);
    OverwriteNone(buf, off);
    while i < |units|
      invariant i <= |units| && n == |done| <= outCap
      invariant text == done + Written16(units[i..], outCap - n)
      invariant whole == done + Encode(units[i..])
      invariant st == Fine || st == Lossy
      invariant clean <==> st == Fine && Clean16(units[i..])
      invariant out[..] == Overwrite(buf, off, done)
    {
      var cp, used, lossy := ReadUnits(units, i);
      WrittenStep(units, i, outCap - n, Step16(cp, used, lossy));
      if lossy { st := Lossy; }
      i := i + used;
      var len := Utf8Length(cp);
      if n + len > outCap {
        st := Truncated;
        assert text == done;
        return;
      }
      PutScalar(out, off + n, cp);
      OverwriteTwice(buf, off, done, EncodeScalar(cp));
      Assoc(done, EncodeScalar(cp), Encode(units[i..]));
      Assoc(done, EncodeScalar(cp), Written16(units[i..], outCap - (n + len)));
      done := done + EncodeScalar(cp);
      n := n + len;
    }
    WrittenEnd(units, outCap - n);
    assert text == done && whole == done;
  }
}
