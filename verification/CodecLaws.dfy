/**
  The laws the two directions of the codec keep together.
 */
module CodecLaws {
  import opened Text
  import opened Utf16
  import opened Utf8

  // ------------------------------------------------------------------
  // Cuts
  // ------------------------------------------------------------------

  /** A sequence never extends past a byte that is not a continuation. */
  lemma Next8BeforeCut(a: seq<byte>, b: seq<byte>)
    requires a != [] && (b == [] || !Continuation(b[0]))
    ensures Next8(a + b) == Next8(a)
  {
    var s := a + b;
    assert s[0] == a[0];
    if a[0] > 0x7F && LeadRow(a[0]).len > 0 {
      var row := LeadRow(a[0]);
      forall i | 0 <= i < |s| ensures s[i] == if i < |a| then a[i] else b[i - |a|] {}
      assert Permitted(s, row) == Permitted(a, row);
      if Permitted(a, row) == row.len {
        ValueOfPrefix(s, row, |a|, row.len);
        assert s[..|a|] == a;
      }
    }
  }

  /** Decoding distributes over any cut placed before a byte that is not a continuation. */
  lemma {:induction false} DecodeJoins(a: seq<byte>, b: seq<byte>)
    requires b == [] || !Continuation(b[0])
    ensures Decode(a + b) == Decode(a) + Decode(b)
    ensures Clean8(a + b) <==> Clean8(a) && Clean8(b)
  {
    hide Next8;
    if a == [] {
      assert a + b == b;
    } else {
      var d := Next8(a).used;
      Next8BeforeCut(a, b);
      assert (a + b)[d..] == a[d..] + b;
      DecodeJoins(a[d..], b);
      Assoc(Next8(a).units, Decode(a[d..]), Decode(b));
    }
  }

  // ------------------------------------------------------------------
  // Inverses
  // ------------------------------------------------------------------

  lemma EncodeScalarIsSequence(c: codepoint)
    requires IsScalar(c)
    ensures Sequence(EncodeScalar(c))
  {
    if c > 0xFFFF { ContinuationDigits(c); }
  }

  lemma ContinuationDigits(c: codepoint)
    ensures 0x80 <= 0x80 + c / 0x1000 % 0x40 <= 0xBF
    ensures c > 0xFFFF ==> Second4(0xF0 + c / 0x40000, 0x80 + c / 0x1000 % 0x40)
  {}

  /** The bits of an encoded scalar value, put together again. */
  function Gather(w: seq<byte>): int
    requires 1 <= |w| <= 4
  {
    match |w|
    case 1 => w[0]
    case 2 => (w[0] as int - 0xC0) * 0x40 + (w[1] as int - 0x80)
    case 3 => (w[0] as int - 0xE0) * 0x1000 + (w[1] as int - 0x80) * 0x40 + (w[2] as int - 0x80)
    case _ => (w[0] as int - 0xF0) * 0x40000 + (w[1] as int - 0x80) * 0x1000
              + (w[2] as int - 0x80) * 0x40 + (w[3] as int - 0x80)
  }

  lemma GatherScalar(c: codepoint)
    ensures Gather(EncodeScalar(c)) == c
  {
    assert c / 0x1000 == c / 0x40 / 0x40 && c / 0x40000 == c / 0x1000 / 0x40;
  }

  lemma ScalarIsUnique(c: codepoint, d: codepoint)
    requires EncodeScalar(c) == EncodeScalar(d)
    ensures c == d
  {
    GatherScalar(c);
    GatherScalar(d);
  }

  /** The decoder reads back one encoded scalar value, whatever follows it. */
  lemma Next8OfScalar(c: codepoint, rest: seq<byte>)
    requires IsScalar(c)
    ensures Next8(EncodeScalar(c) + rest) == Step8(UnitsOf(c), Utf8Length(c), false)
  {
    hide EncodeScalar, Next8;
    var s := EncodeScalar(c) + rest;
    EncodeScalarIsSequence(c);
    assert s[..Utf8Length(c)] == EncodeScalar(c);
    SequenceIsClean(s, Utf8Length(c));
    StepFollowsTable(s);
    var d: codepoint :| IsScalar(d) && EncodeScalar(d) == s[..Next8(s).used] && Next8(s).units == UnitsOf(d);
    ScalarIsUnique(c, d);
  }

  /** The encoder reads back the units of one scalar value, whatever follows them. */
  lemma Next16OfUnits(c: codepoint, rest: seq<unit>)
    requires IsScalar(c)
    ensures Next16(UnitsOf(c) + rest) == Step16(c, |UnitsOf(c)|, false)
  {}

  lemma UnitsOfNext16(u: seq<unit>)
    requires u != [] && !Next16(u).lossy
    ensures UnitsOf(Next16(u).cp) == u[..Next16(u).used]
  {}

  /**
    Whatever units are encoded, the bytes are well-formed; and decoding them
    gives the units back exactly when no surrogate among them is unpaired.
   */
  lemma {:induction false} DecodeOfEncode(u: seq<unit>)
    ensures Clean8(Encode(u))
    ensures Decode(Encode(u)) == u <==> Clean16(u)
  {
    hide EncodeScalar, Next8;
    if u != [] {
      var step := Next16(u);
      var rest := u[step.used..];
      DecodeOfEncode(rest);
      Next8OfScalar(step.cp, Encode(rest));
      assert Encode(u)[Utf8Length(step.cp)..] == Encode(rest);
      assert Decode(Encode(u)) == UnitsOf(step.cp) + Decode(Encode(rest));
      assert u == u[..step.used] + rest;
      if !step.lossy {
        UnitsOfNext16(u);
        if Decode(Encode(u)) == u { assert Decode(Encode(rest)) == Decode(Encode(u))[step.used..] == rest; }
      } else {
        assert Decode(Encode(u))[0] == REPLACEMENT != u[0];
      }
    }
  }

  /**
    Whatever bytes are decoded, no surrogate is left unpaired; and encoding the
    units gives the bytes back exactly when the bytes were well-formed.
   */
  lemma {:induction false} EncodeOfDecode(s: seq<byte>)
    ensures Clean16(Decode(s))
    ensures Clean8(s) ==> Encode(Decode(s)) == s
    decreases |s|
  {
    hide EncodeScalar, Next8, Next16, Encode, Decode;
    DecodeNone();
    EncodeNone();
    if s != [] {
      var step := Next8(s);
      var rest := s[step.used..];
      EncodeOfDecode(rest);
      StepFollowsTable(s);
      var c: codepoint := REPLACEMENT;
      if !step.lossy {
        c :| IsScalar(c) && EncodeScalar(c) == s[..step.used] && step.units == UnitsOf(c);
      }
      assert UnitsOf(REPLACEMENT) == [REPLACEMENT];
      Next16OfUnits(c, Decode(rest));
      DecodeStep(s);
      EncodeStep(Decode(s));
      assert Decode(s) == UnitsOf(c) + Decode(rest);
      assert Decode(s)[|UnitsOf(c)|..] == Decode(rest);
      assert s == s[..step.used] + rest;
    }
  }

  lemma EncodeOfDecodeIff(s: seq<byte>)
    ensures Encode(Decode(s)) == s <==> WellFormed8(s)
  {
    CleanIsWellFormed8(s);
    EncodeOfDecode(s);
    if Encode(Decode(s)) == s { DecodeOfEncode(Decode(s)); }
  }

  /** One pass through the codec repairs text for good: a second pass changes nothing. */
  lemma SanitizeOnce(s: seq<byte>)
    ensures var t := Encode(Decode(s)); WellFormed8(t) && Encode(Decode(t)) == t && Decode(t) == Decode(s)
  {
    EncodeOfDecode(s);
    DecodeOfEncode(Decode(s));
    CleanIsWellFormed8(Encode(Decode(s)));
  }

  /** What a truncated encode leaves is still well-formed, and a whole prefix of the text. */
  lemma TruncatedEncode(u: seq<unit>, cap: nat)
    ensures WellFormed8(Written16(u, cap))
    ensures Written16(u, cap) <= Encode(u)
    ensures Written16(u, cap) == Encode(u) <==> |Encode(u)| <= cap
  {
    hide Written16, Encode, Fit16;
    EncodeNone();
    var k := Fit16(u, cap);
    Written16IsEncodeOfFit(u, cap);
    DecodeOfEncode(u[..k]);
    CleanIsWellFormed8(Written16(u, cap));
    assert u == u[..k] + u[k..];
    EncodeJoins(u[..k], u[k..]);
    if k < |u| {
      FitIsLongest(u, cap, |u|);
      assert u[..|u|] == u;
    } else {
      assert u[k..] == [];
    }
  }

  /** A truncated decode never ends inside a surrogate pair. */
  lemma TruncatedDecode(s: seq<byte>, cap: nat)
    ensures WellFormed16(Written8(s, cap))
    ensures Written8(s, cap) == Decode(s) <==> |Decode(s)| <= cap
  {
    Written8IsDecodeOfFit(s, cap);
    EncodeOfDecode(s[..Fit8(s, cap)]);
    CleanIsWellFormed16(Written8(s, cap));
    Fit8Complete(s, cap);
    assert Fit8(s, cap) == |s| ==> s[..Fit8(s, cap)] == s;
  }

  /** What a truncated decode leaves is a prefix of the whole. */
  lemma {:induction false} Written8IsPrefix(s: seq<byte>, cap: nat)
    ensures Written8(s, cap) <= Decode(s)
  {
    hide Next8;
    if s != [] && |Next8(s).units| <= cap {
      Written8IsPrefix(s[Next8(s).used..], cap - |Next8(s).units|);
    }
  }
}
