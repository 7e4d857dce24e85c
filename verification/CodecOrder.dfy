/**
  The order of characters: section 2 of RFC 2781 numbers surrogate pairs in the order
  of their halves, and UTF-8 keeps the order of code points byte by byte. Together
  with the inverses of CodecLaws this leaves one formula for each.
 */
module CodecOrder {
  import opened Text
  import opened Utf16
  import opened Utf8
  import opened CodecLaws

  /** a comes before b: at the first place where they differ, a is lower. */
  ghost predicate Before(a: seq<int>, b: seq<int>) {
    exists k :: 0 <= k < |a| && k < |b| && a[..k] == b[..k] && a[k] < b[k]
  }

  predicate IsPair(p: seq<unit>) { |p| == 2 && IsHigh(p[0]) && IsLow(p[1]) }

  lemma FirstDiffers(a: seq<int>, b: seq<int>, k: nat)
    requires k < |a| && k < |b| && a[k] < b[k] && forall i :: 0 <= i < k ==> a[i] == b[i]
    ensures Before(a, b)
  {
    assert a[..k] == b[..k];
  }

  /** Two pairs are read as code points in the order of their high halves, then of their low ones. */
  lemma PairsInOrder(p: seq<unit>, q: seq<unit>)
    requires IsPair(p) && IsPair(q)
    ensures Next16(p).cp < Next16(q).cp <==> p[0] < q[0] || (p[0] == q[0] && p[1] < q[1])
    ensures Next16(p).cp < Next16(q).cp <==> Before(p, q)
  {
    if p[0] < q[0] {
      FirstDiffers(p, q, 0);
    } else if p[0] == q[0] && p[1] < q[1] {
      FirstDiffers(p, q, 1);
    }
  }

  /** Code points beyond the first 2^16 have their pairs in order. */
  lemma UnitsInOrder(c: codepoint, d: codepoint)
    requires 0x10000 <= c < d
    ensures Before(UnitsOf(c), UnitsOf(d))
  {
    var x, y := c - 0x10000, d - 0x10000;
    assert x / 0x400 <= y / 0x400;
    FirstDiffers(UnitsOf(c), UnitsOf(d), if x / 0x400 < y / 0x400 then 0 else 1);
  }

  /** Pairs and the code points beyond the first 2^16 correspond in order, from the first to the last. */
  lemma EndsOfPairs()
    ensures Next16([0xD800, 0xDC00]).cp == 0x10000 && Next16([0xDBFF, 0xDFFF]).cp == 0x10FFFF
  {}

  lemma LeadInOrder(c: codepoint, d: codepoint)
    requires c < d && Utf8Length(c) < Utf8Length(d)
    ensures EncodeScalar(c)[0] < EncodeScalar(d)[0]
  {}

  /** UTF-8 keeps the order of code points. */
  lemma BytesInOrder(c: codepoint, d: codepoint)
    requires c < d
    ensures Before(EncodeScalar(c), EncodeScalar(d))
  {
    var v, w, n := EncodeScalar(c), EncodeScalar(d), Utf8Length(c);
    if n < Utf8Length(d) {
      LeadInOrder(c, d);
      FirstDiffers(v, w, 0);
    } else {
      DigitsAgree(c, d);
      hide EncodeScalar;
      FirstDiffers(v, w, if v[0] < w[0] then 0 else if v[1] < w[1] then 1 else if v[2] < w[2] then 2 else 3);
    }
  }

  /** Digits of equal number: the first in which they differ decides. */
  lemma DigitsAgree(c: codepoint, d: codepoint)
    requires c < d && Utf8Length(c) == Utf8Length(d)
    ensures var (v, w, n) := (EncodeScalar(c), EncodeScalar(d), Utf8Length(c));
            && v[0] <= w[0] && (v[0] == w[0] ==> n > 1 && v[1] <= w[1])
            && (v[0] == w[0] && v[1] == w[1] ==> n > 2 && v[2] <= w[2])
            && (v[0] == w[0] && v[1] == w[1] && v[2] == w[2] ==> n > 3 && v[3] < w[3])
  {
    Quotients(c);
    Quotients(d);
    LastDigit(c, d);
    LastDigit(c / 0x40, d / 0x40);
    LastDigit(c / 0x1000, d / 0x1000);
  }

  lemma Quotients(c: nat)
    ensures c / 0x1000 == c / 0x40 / 0x40 && c / 0x40000 == c / 0x1000 / 0x40
  {}

  lemma LastDigit(x: nat, y: nat)
    ensures x < y <==> x / 0x40 < y / 0x40 || (x / 0x40 == y / 0x40 && x % 0x40 < y % 0x40)
  {}

  /** So pairs in order are encoded as byte sequences in order, and these decode in order. */
  lemma PairsEncodeInOrder(p: seq<unit>, q: seq<unit>)
    requires IsPair(p) && IsPair(q)
    ensures Before(p, q) ==> Before(Encode(p), Encode(q))
    ensures Before(p, q) ==> Before(Decode(Encode(p)), Decode(Encode(q)))
  {
    PairIsEncoded(p);
    PairIsEncoded(q);
    PairsInOrder(p, q);
    hide Encode, Decode, EncodeScalar;
    if Before(p, q) { BytesInOrder(Next16(p).cp, Next16(q).cp); }
  }

  lemma PairIsEncoded(p: seq<unit>)
    requires IsPair(p)
    ensures Encode(p) == EncodeScalar(Next16(p).cp) && Decode(Encode(p)) == p && Next16(p).cp >= 0x10000
  {
    assert Next16(p).used == 2 && p[2..] == [];
    EncodeStep(p);
    EncodeNone();
    assert Clean16(p);
    DecodeOfEncode(p);
  }

  lemma FaceIsRead(p: seq<unit>)
    requires p == [0xD83D, 0xDE00]
    ensures IsPair(p) && Next16(p).cp == 0x1F600
  {}

  lemma FaceIsWritten()
    ensures EncodeScalar(0x1F600) == [0xF0, 0x9F, 0x98, 0x80]
  {}

  /** U+1F600, which both directions know by its units and its bytes. */
  lemma GrinningFace()
    ensures Encode([0xD83D, 0xDE00]) == [0xF0, 0x9F, 0x98, 0x80]
    ensures Decode([0xF0, 0x9F, 0x98, 0x80]) == [0xD83D, 0xDE00]
  {
    hide *;
    var p: seq<unit> := [0xD83D, 0xDE00];
    FaceIsRead(p);
    PairIsEncoded(p);
    FaceIsWritten();
  }

  /** Anything that cannot be read is written as U+FFFD, in either form. */
  lemma Substitution(u: unit, b: byte)
    requires (IsHigh(u) || IsLow(u)) && 0x80 <= b <= 0xC1
    ensures Encode([u]) == [0xEF, 0xBF, 0xBD] && Decode([b]) == [0xFFFD]
  {
    assert [u][1..] == [] && [b][1..] == [];
    EncodeStep([u]);
    EncodeNone();
  }
}
