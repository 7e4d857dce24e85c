/**
  The strings of src/json_parser.c: the printer json_escape and the reader
  json_unescape, which knows the short escapes and no \u.

  Strings are C strings: none holds a NUL.
 */
module JsonText {
  import opened Text
  import opened Argv

  const BS: char := 8 as char
  const FF: char := 12 as char

  // ------------------------------------------------------------------
  // Printing
  // ------------------------------------------------------------------

  /** The letter of a short escape; the character itself if it has none. */
  function ShortLetter(c: char): char {
    match c
    case '\n' => 'n'
    case '\t' => 't'
    case '\r' => 'r'
    case _ => if c == BS then 'b' else if c == FF then 'f' else c
  }

  predicate HasShort(c: char) { c == '"' || c == '\\' || ShortLetter(c) != c }

  predicate IsControl(c: char) { c as int < 0x20 }

  function Hex(d: int): char
    requires 0 <= d < 16
  {
    if d < 10 then '0' + d as char else 'a' + (d - 10) as char
  }

  function EscapeChar(c: char): (r: string)
    ensures 1 <= |r| <= 6
  {
    if HasShort(c) then ['\\', ShortLetter(c)]
    else if IsControl(c) then ['\\', 'u', '0', '0', Hex(c as int / 16), Hex(c as int % 16)]
    else [c]
  }

  function EscapeText(s: string): string {
    if |s| == 0 then "" else EscapeChar(s[0]) + EscapeText(s[1..])
  }

  // ------------------------------------------------------------------
  // Reading
  // ------------------------------------------------------------------

  /** What stands for a letter after a backslash; None where the pair is kept as it is. */
  function Meant(e: char): string {
    match e
    case 'n' => "\n"
    case 't' => "\t"
    case 'r' => "\r"
    case 'b' => [BS]
    case 'f' => [FF]
    case _ => if e == '"' || e == '\\' || e == '/' then [e] else ['\\', e]
  }

  function Unescape(raw: string): string {
    if |raw| == 0 then ""
    else if raw[0] == '\\' && |raw| > 1 then Meant(raw[1]) + Unescape(raw[2..])
    else [raw[0]] + Unescape(raw[1..])
  }

  /** Where the closing quote of a string stands, escaped characters passed over; |s| if nowhere. */
  function StringEnd(s: string): (n: nat)
    ensures n <= |s|
    ensures n < |s| ==> s[n] == '"'
  {
    if |s| == 0 || s[0] == '"' then 0
    else if s[0] == '\\' && |s| > 1 then 2 + StringEnd(s[2..])
    else 1 + StringEnd(s[1..])
  }

  /** The short escapes, one by one: both directions know the same. */
  lemma ShortEscapes()
    ensures EscapeChar('"') == "\\\"" && EscapeChar('\\') == "\\\\" && EscapeChar('\n') == "\\n"
    ensures EscapeChar('\t') == "\\t" && EscapeChar('\r') == "\\r" && EscapeChar(8 as char) == "\\b" && EscapeChar(12 as char) == "\\f"
    ensures Meant('"') == "\"" && Meant('\\') == "\\" && Meant('/') == "/" && Meant('n') == "\n"
    ensures Meant('t') == "\t" && Meant('r') == "\r" && Meant('b') == [8 as char] && Meant('f') == [12 as char] && Meant('u') == "\\u"
  {}

  /** Any other control character is written as \u and four hexadecimal digits, and any other character as itself. */
  lemma LongEscapes(c: char)
    ensures c as int < 0x20 && c as int !in {8, 9, 10, 12, 13} ==>
              |EscapeChar(c)| == 6 && EscapeChar(c)[..4] == "\\u00"
              && EscapeChar(c)[4] == "0123456789abcdef"[c as int / 16] && EscapeChar(c)[5] == "0123456789abcdef"[c as int % 16]
    ensures c as int >= 0x20 && c != '"' && c != '\\' ==> EscapeChar(c) == [c]
  {}

  // ------------------------------------------------------------------
  // The reader undoes the printer
  // ------------------------------------------------------------------

  /** No control characters but the five with a short escape. */
  predicate Clean(s: string) { forall i :: 0 <= i < |s| ==> IsControl(s[i]) ==> HasShort(s[i]) }

  lemma UnescapePiece(c: char, rest: string)
    ensures Unescape(EscapeChar(c) + rest) == (if IsControl(c) && !HasShort(c) then EscapeChar(c) else [c]) + Unescape(rest)
  {
    hide Unescape, Meant, HasShort, Hex, ShortLetter;
    if HasShort(c) {
      UnescapePair(ShortLetter(c), rest);
      ShortIsMeant(c);
    } else if IsControl(c) {
      var t := ['0', '0', Hex(c as int / 16), Hex(c as int % 16)];
      assert EscapeChar(c) == ['\\', 'u'] + t;
      Assoc(['\\', 'u'], t, rest);
      UnescapePair('u', t + rest);
      HexIsPlain(c as int / 16);
      HexIsPlain(c as int % 16);
      PlainStays(t, rest);
      UnknownKept();
      Assoc(['\\', 'u'], t, Unescape(rest));
    } else {
      PlainStays([c], rest) by { BackslashHasShort(); }
    }
  }

  lemma UnescapePair(e: char, rest: string)
    ensures Unescape(['\\', e] + rest) == Meant(e) + Unescape(rest)
  {
    assert (['\\', e] + rest)[2..] == rest;
    hide Meant;
  }

  lemma ShortIsMeant(c: char)
    requires HasShort(c)
    ensures Meant(ShortLetter(c)) == [c]
  {}

  lemma UnknownKept()
    ensures Meant('u') == ['\\', 'u']
  {}

  lemma BackslashHasShort()
    ensures HasShort('\\')
  {}

  lemma HexIsPlain(d: int)
    requires 0 <= d < 16
    ensures Hex(d) != '\\' && Hex(d) != '"' && !IsControl(Hex(d))
  {}

  lemma {:induction false} PlainStays(t: string, rest: string)
    requires forall i :: 0 <= i < |t| ==> t[i] != '\\'
    ensures Unescape(t + rest) == t + Unescape(rest)
  {
    if |t| == 0 {
      assert t + rest == rest;
    } else {
      assert (t + rest)[1..] == t[1..] + rest;
      PlainStays(t[1..], rest);
      Assoc([t[0]], t[1..], Unescape(rest));
      assert t == [t[0]] + t[1..];
    }
  }

  /** Printed and read back, a string has grown by five for each control character without a short escape. */
  lemma {:induction false} UnescapedLength(s: string)
    ensures |Unescape(EscapeText(s))| >= |s|
    ensures |Unescape(EscapeText(s))| == |s| <==> Clean(s)
    ensures Clean(s) ==> Unescape(EscapeText(s)) == s
  {
    hide EscapeChar, HasShort, IsControl, Unescape;
    if |s| == 0 {
      assert Unescape("") == "" by { UnescapeNothing(); }
    } else {
      UnescapePiece(s[0], EscapeText(s[1..]));
      UnescapedLength(s[1..]);
      assert s == [s[0]] + s[1..];
      LongEscape(s[0]);
      assert Clean(s) <==> Clean(s[1..]) && (IsControl(s[0]) ==> HasShort(s[0]));
    }
  }

  lemma UnescapeNothing()
    ensures Unescape("") == ""
  {}

  lemma LongEscape(c: char)
    ensures IsControl(c) && !HasShort(c) ==> |EscapeChar(c)| == 6
  {}

  /** A string survives printing and reading exactly when every control character in it has a short escape. */
  lemma UnescapeOfEscape(s: string)
    ensures Unescape(EscapeText(s)) == s <==> Clean(s)
  {
    UnescapedLength(s);
    hide EscapeText, Unescape, Clean;
  }

  /** A printed string ends at the quote put after it, and holds no line feed or other control character. */
  lemma {:induction false} EscapedEnds(s: string, rest: string)
    ensures StringEnd(EscapeText(s) + "\"" + rest) == |EscapeText(s)|
    ensures forall i :: 0 <= i < |EscapeText(s)| ==> !IsControl(EscapeText(s)[i])
  {
    hide EscapeChar, StringEnd, IsControl;
    if |s| == 0 {
      assert EscapeText(s) + "\"" + rest == "\"" + rest;
      EndsHere(rest);
    } else {
      EscapedEnds(s[1..], rest);
      var e, more := EscapeChar(s[0]), EscapeText(s[1..]);
      Assoc(e, more, "\"" + rest);
      Assoc(more, "\"", rest);
      Assoc(e + more, "\"", rest);
      EndPassesPiece(s[0], more + "\"" + rest);
      assert forall i :: |e| <= i < |e + more| ==> (e + more)[i] == more[i - |e|];
    }
  }

  lemma EndsHere(rest: string)
    ensures StringEnd("\"" + rest) == 0
  {}

  lemma EndPassesPiece(c: char, rest: string)
    ensures StringEnd(EscapeChar(c) + rest) == |EscapeChar(c)| + StringEnd(rest)
    ensures forall i :: 0 <= i < |EscapeChar(c)| ==> !IsControl(EscapeChar(c)[i])
  {
    hide StringEnd, HasShort, Hex, ShortLetter;
    if HasShort(c) {
      EndPassesPair(ShortLetter(c), rest);
      LetterIsPrintable(c);
    } else if IsControl(c) {
      var t := ['0', '0', Hex(c as int / 16), Hex(c as int % 16)];
      assert EscapeChar(c) == ['\\', 'u'] + t;
      Assoc(['\\', 'u'], t, rest);
      EndPassesPair('u', t + rest);
      HexIsPlain(c as int / 16);
      HexIsPlain(c as int % 16);
      PrintableLetters();
      EndPassesPlain(t, rest);
    } else {
      EndPassesPlain([c], rest) by { BackslashHasShort(); QuoteHasShort(); }
    }
  }

  lemma EndPassesPair(e: char, rest: string)
    ensures StringEnd(['\\', e] + rest) == 2 + StringEnd(rest)
  {
    assert (['\\', e] + rest)[2..] == rest;
  }

  lemma LetterIsPrintable(c: char)
    requires HasShort(c)
    ensures !IsControl(ShortLetter(c)) && !IsControl('\\')
  {}

  lemma PrintableLetters()
    ensures !IsControl('\\') && !IsControl('u') && !IsControl('0')
  {}

  lemma QuoteHasShort()
    ensures HasShort('"')
  {}

  lemma {:induction false} EndPassesPlain(t: string, rest: string)
    requires forall i :: 0 <= i < |t| ==> t[i] != '\\' && t[i] != '"'
    ensures StringEnd(t + rest) == |t| + StringEnd(rest)
  {
    if |t| == 0 {
      assert t + rest == rest;
    } else {
      assert (t + rest)[1..] == t[1..] + rest;
      EndPassesPlain(t[1..], rest);
    }
  }

  // ------------------------------------------------------------------
  // json_escape
  // ------------------------------------------------------------------

  lemma EscapedAt(s: string, i: nat)
    requires i < |s|
    ensures EscapeText(s[i..]) == EscapeChar(s[i]) + EscapeText(s[i + 1..])
  {
    assert s[i..][1..] == s[i + 1..];
    hide EscapeChar;
  }

  method JsonEscape(src: string, dst: array<char>, dstSize: int) returns (n: int)
    requires 1 <= dstSize <= dst.Length
    modifies dst
    ensures Printed(old(dst[..]), dst[..], 0, dstSize, EscapeText(src), n)
  {
    hide Overwrite, Confined, Printed, EscapeText, EscapeChar;
    ghost var was, done: string, text := dst[..], "", EscapeText(src);
    OverwriteNone(was, 0);
    assert src[0..] == src && "" + text == text;
    var out, p := 0, 0;
    while p < |src|
      invariant p <= |src| && out == |done| <= dstSize - 1
      invariant text == done + EscapeText(src[p..])
      invariant dst[..] == Overwrite(was, 0, done)
    {
      var c := src[p];
      ghost var mid := dst[..];
      EscapedAt(src, p);
      Assoc(done, EscapeChar(c), EscapeText(src[p + 1..]));
      PieceIs(c);
      OverwriteIsConfined(mid, 0, [], 0, dstSize);
      OverwriteNone(mid, 0);
      if out + |EscapeChar(c)| > dstSize - 1 { PrintedPart(was, 0, dstSize, done, mid, text); }
      if HasShort(c) {
        if out + 2 > dstSize - 1 { return -1; }
        dst[out] := '\\';
        dst[out + 1] := ShortLetter(c);
        OverwriteIs(mid, out, EscapeChar(c), dst[..]);
        out := out + 2;
      } else if c as int < 0x20 {
        if out + 6 > dstSize - 1 { return -1; }
        dst[out] := '\\';
        dst[out + 1] := 'u';
        dst[out + 2] := '0';
        dst[out + 3] := '0';
        dst[out + 4] := Hex(c as int / 16 % 16);
        dst[out + 5] := Hex(c as int % 16);
        OverwriteIs(mid, out, EscapeChar(c), dst[..]);
        out := out + 6;
      } else {
        if out + 1 > dstSize - 1 { return -1; }
        dst[out] := c;
        OverwriteIs(mid, out, EscapeChar(c), dst[..]);
        out := out + 1;
      }
      Extend(was, 0, done, EscapeChar(c));
      p, done := p + 1, done + EscapeChar(c);
    }
    assert text == done by { assert src[|src|..] == []; EscapeNothing(); }
    ghost var last := dst[..];
    dst[out] := '\0';
    OverwriteIs(last, out, [NUL], dst[..]);
    PrintedWhole(was, 0, dstSize, text, dst[..]);
    n := out;
  }

  lemma EscapeNothing()
    ensures EscapeText("") == ""
  {}

  lemma PieceIs(c: char)
    ensures HasShort(c) ==> EscapeChar(c) == ['\\', ShortLetter(c)]
    ensures !HasShort(c) && c as int < 0x20 ==>
              EscapeChar(c) == ['\\', 'u', '0', '0', Hex(c as int / 16 % 16), Hex(c as int % 16)]
    ensures !HasShort(c) && c as int >= 0x20 ==> EscapeChar(c) == [c]
  {}

  // ------------------------------------------------------------------
  // json_unescape
  // ------------------------------------------------------------------

  lemma UnescapedAt(raw: string, i: nat)
    requires i < |raw|
    ensures Unescape(raw[i..]) ==
              if raw[i] == '\\' && i + 1 < |raw| then Meant(raw[i + 1]) + Unescape(raw[i + 2..])
              else [raw[i]] + Unescape(raw[i + 1..])
  {
    assert raw[i..][1..] == raw[i + 1..];
    if i + 1 < |raw| { assert raw[i..][2..] == raw[i + 2..]; }
    hide Meant;
  }

  /** Where the character after the one at i, or after its escape, stands. */
  function After(raw: string, i: nat): (j: nat)
    requires i < |raw|
    ensures i < j <= |raw|
  {
    if raw[i] == '\\' && i + 1 < |raw| then i + 2 else i + 1
  }

  /** What stands from i up to there means. */
  function PieceAt(raw: string, i: nat): string
    requires i < |raw|
  {
    if raw[i] == '\\' && i + 1 < |raw| then Meant(raw[i + 1]) else [raw[i]]
  }

  lemma PieceThenRest(raw: string, i: nat)
    requires i < |raw|
    ensures Unescape(raw[i..]) == PieceAt(raw, i) + Unescape(raw[After(raw, i)..])
  {
    UnescapedAt(raw, i);
    hide Unescape, Meant;
  }

  /** One character, or one escape: as much of its meaning as there is room for is stored. */
  method PutPieceAt(raw: string, i: nat, dst: array<char>, from: nat, dstSize: int) returns (out: nat)
    requires i < |raw| && from < dstSize - 1 < dst.Length
    modifies dst
    ensures from <= out <= from + |PieceAt(raw, i)| && (out == dstSize - 1 || out == from + |PieceAt(raw, i)|) && out <= dstSize - 1
    ensures dst[..] == Overwrite(old(dst[..]), from, PieceAt(raw, i)[..out - from])
  {
    hide Overwrite, Meant, Single;
    ghost var was := dst[..];
    out := from;
    if raw[i] == '\\' && i + 1 < |raw| {
      MeantIs(raw[i + 1]);
      var one := Single(raw[i + 1]);
      if one.Some? {
        dst[out] := one.value;
        out := out + 1;
      } else {
        dst[out] := '\\';
        out := out + 1;
        if out < dstSize - 1 {
          dst[out] := raw[i + 1];
          out := out + 1;
        }
      }
    } else {
      dst[out] := raw[i];
      out := out + 1;
    }
    OverwriteIs(was, from, PieceAt(raw, i)[..out - from], dst[..]);
  }

  /** What there is room for, dstSize - 1 characters of the meaning, is stored. */
  method JsonUnescape(raw: string, dst: array<char>, dstSize: int) returns (n: int)
    requires 1 <= dstSize <= dst.Length
    modifies dst
    ensures n == if |Unescape(raw)| < dstSize then |Unescape(raw)| else dstSize - 1
    ensures dst[..] == Overwrite(old(dst[..]), 0, Unescape(raw)[..n] + [NUL])
  {
    hide *;
    ghost var was, text := dst[..], Unescape(raw);
    OverwriteNone(was, 0);
    assert raw[0..] == raw && text[..0] == "" && "" + text == text;
    var i, out := 0, 0;
    while i < |raw| && out < dstSize - 1
      invariant i <= |raw| && 0 <= out <= |text| && out <= dstSize - 1
      invariant out == dstSize - 1 || text == text[..out] + Unescape(raw[i..])
      invariant dst[..] == Overwrite(was, 0, text[..out])
    {
      ghost var done, piece := text[..out], PieceAt(raw, i);
      PieceThenRest(raw, i);
      out := PutPieceAt(raw, i, dst, out, dstSize);
      i := After(raw, i);
      MoreMeant(was, text, done, piece, Unescape(raw[i..]), out);
    }
    if i == |raw| && out < dstSize - 1 {
      assert raw[i..] == [];
      UnescapeNothing();
      assert text == text[..out];
    }
    ghost var last := dst[..];
    dst[out] := NUL;
    OverwriteIs(last, out, [NUL], dst[..]);
    Extend(was, 0, text[..out], [NUL]);
    n := out;
  }

  /** Part of a piece has been stored after `done`, the whole of it if there was room. */
  lemma MoreMeant(was: seq<char>, text: string, done: string, piece: string, more: string, out: nat)
    requires text == done + (piece + more) && |done| <= out <= |done| + |piece| && out <= |was|
    ensures text[..out] == done + piece[..out - |done|]
    ensures Overwrite(Overwrite(was, 0, done), |done|, piece[..out - |done|]) == Overwrite(was, 0, text[..out])
    ensures out == |done| + |piece| ==> text == text[..out] + more
  {
    Extend(was, 0, done, piece[..out - |done|]);
    Assoc(done, piece, more);
    hide Overwrite;
    assert text[..out] == done + piece[..out - |done|];
  }

  function Single(e: char): Option<char> {
    match e
    case 'n' => Some('\n')
    case 't' => Some('\t')
    case 'r' => Some('\r')
    case 'b' => Some(BS)
    case 'f' => Some(FF)
    case _ => if e == '"' || e == '\\' || e == '/' then Some(e) else None
  }

  lemma MeantIs(e: char)
    ensures Meant(e) == if Single(e).Some? then [Single(e).value] else ['\\', e]
  {}
}
