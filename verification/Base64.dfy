/**
  src/base64.c: Base64 as section 4 of RFC 4648 describes it, in groups of three
  octets and four sextets. The decoder keeps its bits in a 32-bit word that wraps.
 */
module Base64 {
  import opened Text

  type sextet = n: int | 0 <= n < 64

  const NUL: char := 0 as char
  const TAB: char := 9 as char

  // ------------------------------------------------------------------
  // Groups of bits
  // ------------------------------------------------------------------

  /** A group as one number: each sextet follows the bits before it. */
  function Six(bits: nat, v: sextet): nat { bits * 64 + v }

  function Eight(bits: nat, v: byte): nat { bits * 256 + v }

  /** The octets of a run of sextets, group by group; the odd bits of a short last group are no octet. */
  function Octets(s: seq<sextet>): seq<byte> {
    if |s| < 2 then []
    else if |s| == 2 then [Six(s[0], s[1]) / 16]
    else if |s| == 3 then
      var n := Six(Six(s[0], s[1]), s[2]);
      [n / 1024, n / 4 % 256]
    else Full(s[0], s[1], s[2], s[3]) + Octets(s[4..])
  }

  function Full(a: sextet, b: sextet, c: sextet, d: sextet): (r: seq<byte>)
    ensures |r| == 3
  {
    var n := Six(Six(Six(a, b), c), d);
    [n / 65536, n / 256 % 256, n % 256]
  }

  /** The odd bits of a short last group. */
  function Odd(s: seq<sextet>): nat {
    if |s| == 0 then 0
    else if |s| == 1 then s[0]
    else if |s| == 2 then s[1] % 16
    else if |s| == 3 then s[2] % 4
    else Odd(s[4..])
  }

  function OddBits(k: nat): nat { if k % 4 == 0 then 0 else 8 - 2 * (k % 4) }

  /** The sextets of a run of octets, the last group filled up with zero bits. */
  function Sextets(b: seq<byte>): seq<sextet> {
    if |b| == 0 then []
    else if |b| == 1 then
      var n := b[0] as nat * 16;
      [n / 64, n % 64]
    else if |b| == 2 then
      var n := Eight(b[0], b[1]) * 4;
      [n / 4096, n / 64 % 64, n % 64]
    else Split(b[0], b[1], b[2]) + Sextets(b[3..])
  }

  function Split(a: byte, b: byte, c: byte): (r: seq<sextet>)
    ensures |r| == 4
  {
    var n := Eight(Eight(a, b), c);
    [n / 262144, n / 4096 % 64, n / 64 % 64, n % 64]
  }

  lemma {:induction false} OctetCount(s: seq<sextet>)
    ensures |Octets(s)| == 6 * |s| / 8
  {
    if |s| >= 4 { OctetCount(s[4..]); }
  }

  function Pow2(n: nat): (r: nat)
    ensures r > 0
  {
    if n == 0 then 1 else 2 * Pow2(n - 1)
  }

  lemma SmallPowers()
    ensures Pow2(0) == 1 && Pow2(2) == 4 && Pow2(4) == 16 && Pow2(6) == 64
  {
    assert Pow2(1) == 2 && Pow2(3) == 8 && Pow2(5) == 32;
  }

  lemma DivIs(n: nat, k: nat, q: nat, r: nat)
    requires n == q * k + r && r < k
    ensures n / k == q && n % k == r
  {
    hide Times;
    var q' := n / k;
    DivSpec(n, k);
    if q < q' { TimesGrow(q + 1, q', k); }
    if q > q' { TimesGrow(q' + 1, q, k); }
    TimesStep(q, k);
    TimesStep(q', k);
  }

  function Times(a: nat, k: nat): nat { a * k }

  lemma TimesGrow(a: nat, b: nat, k: nat)
    requires a <= b
    ensures Times(a, k) <= Times(b, k)
  {}

  lemma TimesStep(a: nat, k: nat)
    ensures Times(a + 1, k) == Times(a, k) + k && Times(a, k) == a * k
  {}

  lemma DivSpec(n: nat, k: nat)
    requires k > 0
    ensures n == Times(n / k, k) + n % k
  {}

  lemma SecondSextet(a: sextet, v: sextet)
    ensures Octets([a, v]) == [Six(a, v) / 16] && Odd([a, v]) == Six(a, v) % 16
  {
    var n, v1, v0 := Six(a, v), v / 16, v % 16;
    DivIs(n, 16, a * 4 as nat + v1, v0);
  }

  lemma ThirdSextet(a: sextet, b: sextet, v: sextet)
    ensures Octets([a, b, v]) == Octets([a, b]) + [Six(b % 16, v) / 4] && Odd([a, b, v]) == Six(b % 16, v) % 4
  {
    ThirdOctet(a, b, v, a, b / 16, b % 16, v / 4, v % 4);
    hide Six;
    assert [a, b, v] == [a, b] + [v];
  }

  lemma ThirdOctet(a: sextet, b: sextet, v: sextet, a0: nat, b1: nat, b0: nat, v1: nat, v0: nat)
    requires a == a0 && b == b1 * 16 + b0 && v == v1 * 4 + v0 && b0 < 16 && v0 < 4
    ensures var n := Six(Six(a, b), v);
            && n / 1024 == Six(a, b) / 16
            && n / 4 % 256 == Six(b0, v) / 4
            && v0 == Six(b0, v) % 4
  {
    var n := Six(Six(a, b), v);
    DivIs(n, 1024, a0 * 4 + b1, b0 * 64 + v1 * 4 + v0);
    DivIs(Six(a, b), 16, a0 * 4 + b1, b0);
    DivIs(n, 4, a0 * 1024 + b1 * 256 + b0 * 16 + v1, v0);
    DivIs(n / 4, 256, a0 * 4 + b1, b0 * 16 + v1);
    DivIs(Six(b0, v), 4, b0 * 16 + v1, v0);
  }

  lemma FourthSextet(a: sextet, b: sextet, c: sextet, v: sextet)
    ensures Octets([a, b, c, v]) == Octets([a, b, c]) + [Six(c % 4, v)] && Odd([a, b, c, v]) == 0
  {
    FourthOctet(Six(Six(a, b), c), c, v);
    hide Six;
    assert [a, b, c, v][4..] == [];
  }

  lemma FourthOctet(m: nat, c: sextet, v: sextet)
    requires m % 64 == c && m / 1024 < 256
    ensures var n := Six(m, v);
            n / 65536 == m / 1024 && n / 256 % 256 == m / 4 % 256 && n % 256 == Six(c % 4, v)
  {
    var n := Six(m, v);
    DivIs(n, 65536, m / 1024, m % 1024 * 64 + v);
    DivIs(n, 256, m / 4, m % 4 * 64 + v);
    assert m % 4 == c % 4 by { DivIs(m, 4, m / 64 * 16 + c / 4, c % 4); }
  }

  /** One more sextet: its bits join the odd ones, and eight of them become an octet when there are enough. */
  predicate Joins(s: seq<sextet>, v: sextet) {
    var (w, t) := (OddBits(|s|), Six(Odd(s), v));
    && Odd(s) < Pow2(w)
    && if w == 0 then Octets(s + [v]) == Octets(s) && Odd(s + [v]) == v
       else
         && t / Pow2(w - 2) < 256
         && Octets(s + [v]) == Octets(s) + [t / Pow2(w - 2)]
         && Odd(s + [v]) == t % Pow2(w - 2)
  }

  lemma {:induction false} OneMoreSextet(s: seq<sextet>, v: sextet)
    ensures Joins(s, v)
  {
    hide *;
    if |s| == 0 {
      FirstJoins(v);
      assert s == [];
    } else if |s| == 1 {
      SecondJoins(s[0], v);
      assert s == [s[0]];
    } else if |s| == 2 {
      ThirdJoins(s[0], s[1], v);
      assert s == [s[0], s[1]];
    } else if |s| == 3 {
      FourthJoins(s[0], s[1], s[2], v);
      assert s == [s[0], s[1], s[2]];
    } else {
      OneMoreSextet(s[4..], v);
      LaterJoins(s, v);
    }
  }

  lemma LaterJoins(s: seq<sextet>, v: sextet)
    requires |s| >= 4 && Joins(s[4..], v)
    ensures Joins(s, v)
  {
    hide Pow2, Octets, Odd, Six, Full;
    FirstGroup(s);
    FirstGroup(s + [v]);
    assert (s + [v])[4..] == s[4..] + [v];
    assert OddBits(|s|) == OddBits(|s[4..]|);
    hide OddBits;
  }

  lemma FirstJoins(v: sextet)
    ensures Joins([], v)
  {
    SmallPowers();
    assert [] + [v] == [v];
    hide Pow2;
  }

  lemma SecondJoins(a: sextet, v: sextet)
    ensures Joins([a], v)
  {
    SmallPowers();
    ShortRuns(a, v);
    SecondSextet(a, v);
    SixFits(a, v, 64, 16);
    assert [a] + [v] == [a, v];
    hide Pow2, Octets, Odd, Six;
  }

  lemma ThirdJoins(a: sextet, b: sextet, v: sextet)
    ensures Joins([a, b], v)
  {
    SmallPowers();
    SecondSextet(a, b);
    SixLow(a, b);
    ThirdSextet(a, b, v);
    SixFits(b % 16, v, 16, 4);
    assert [a, b] + [v] == [a, b, v];
    hide Pow2, Octets, Odd, Six;
  }

  lemma FourthJoins(a: sextet, b: sextet, c: sextet, v: sextet)
    ensures Joins([a, b, c], v)
  {
    SmallPowers();
    ThirdSextet(a, b, c);
    SixLow(b % 16, c);
    FourthSextet(a, b, c, v);
    SixFits(c % 4, v, 4, 1);
    assert [a, b, c] + [v] == [a, b, c, v];
    hide Pow2, Octets, Odd, Six;
  }

  lemma FirstGroup(s: seq<sextet>)
    requires |s| >= 4
    ensures Octets(s) == Full(s[0], s[1], s[2], s[3]) + Octets(s[4..]) && Odd(s) == Odd(s[4..])
  {}

  lemma ShortRuns(a: sextet, v: sextet)
    ensures Octets([]) == Octets([a]) == Octets([v]) == [] && Odd([]) == 0 && Odd([a]) == a && Odd([v]) == v
  {}

  lemma SixFits(bits: nat, v: sextet, k: nat, d: nat)
    requires bits < k && k * 64 == d * 256 && d > 0
    ensures Six(bits, v) / d < 256
  {
    hide Times;
    var q := Six(bits, v) / d;
    DivSpec(Six(bits, v), d);
    if q >= 256 { TimesGrow(256, q, d); }
    TimesStep(256, d);
  }

  lemma SixLow(bits: nat, v: sextet)
    ensures Six(bits, v) % 16 == v % 16 && Six(bits, v) % 4 == v % 4
  {
    DivIs(Six(bits, v), 16, bits * 4 + v / 16, v % 16);
    DivIs(Six(bits, v), 4, bits * 16 + v / 4, v % 4);
  }

  // ------------------------------------------------------------------
  // Octets and sextets are inverse
  // ------------------------------------------------------------------

  lemma Digits64(n: nat)
    requires n < 0x1000000
    ensures n / 262144 < 64
    ensures Six(Six(Six(n / 262144, n / 4096 % 64), n / 64 % 64), n % 64) == n
  {
    DivIs(n / 64, 64, n / 4096, n / 64 % 64);
    DivIs(n / 4096, 64, n / 262144, n / 4096 % 64);
  }

  lemma Digits256(a: byte, b: byte, c: byte)
    ensures var n := Eight(Eight(a, b), c); n < 0x1000000 && n / 65536 == a && n / 256 % 256 == b && n % 256 == c
  {
    var n := Eight(Eight(a, b), c);
    DivIs(n, 65536, a, b as nat * 256 + c);
    DivIs(n, 256, Eight(a, b), c);
    DivIs(n / 256, 256, a, b);
  }

  lemma SplitBack(a: byte, b: byte, c: byte)
    ensures var q := Split(a, b, c); Full(q[0], q[1], q[2], q[3]) == [a, b, c]
  {
    Digits256(a, b, c);
    Digits64(Eight(Eight(a, b), c));
    hide Six, Eight;
  }

  /** Filling up the last group changes nothing: the octets come back, and no odd bit is set. */
  lemma {:induction false} OctetsOfSextets(b: seq<byte>)
    ensures Octets(Sextets(b)) == b && Odd(Sextets(b)) == 0 && |Sextets(b)| % 4 != 1
  {
    hide Octets, Odd, Full, Split, Sextets;
    if |b| < 3 {
      ShortBack(b);
    } else {
      var q, rest := Split(b[0], b[1], b[2]), Sextets(b[3..]);
      FirstTriple(b);
      SplitBack(b[0], b[1], b[2]);
      OctetsOfSextets(b[3..]);
      FirstGroup(q + rest);
      assert (q + rest)[4..] == rest;
      assert [b[0], b[1], b[2]] + b[3..] == b;
    }
  }

  lemma FirstTriple(b: seq<byte>)
    requires |b| >= 3
    ensures Sextets(b) == Split(b[0], b[1], b[2]) + Sextets(b[3..])
  {}

  lemma ShortBack(b: seq<byte>)
    requires |b| < 3
    ensures Octets(Sextets(b)) == b && Odd(Sextets(b)) == 0 && |Sextets(b)| % 4 != 1
  {
    hide Octets, Odd;
    if |b| == 0 {
      ShortRuns(0, 0);
    } else if |b| == 1 {
      SingleBack(b[0]);
      assert b == [b[0]];
    } else {
      PairBack(b[0], b[1]);
      assert b == [b[0], b[1]];
    }
  }

  lemma SingleBack(a: byte)
    ensures var n := a as nat * 16;
            var s: seq<sextet> := [n / 64, n % 64];
            Octets(s) == [a] && Odd(s) == 0
  {
    var n := a as nat * 16;
    SecondSextet(n / 64, n % 64);
    DivIs(n, 64, n / 64, n % 64);
    DivIs(n, 16, a, 0);
  }

  lemma PairBack(a: byte, b: byte)
    ensures var n := Eight(a, b) * 4;
            var s: seq<sextet> := [n / 4096, n / 64 % 64, n % 64];
            Octets(s) == [a, b] && Odd(s) == 0
  {
    PairDigits(a, b, a / 4, a % 4, b / 16, b % 16);
    hide Six, Eight;
  }

  lemma PairDigits(a: byte, b: byte, a1: nat, a0: nat, b1: nat, b0: nat)
    requires a == a1 * 4 + a0 && b == b1 * 16 + b0 && a0 < 4 && b0 < 16
    ensures var n := Eight(a, b) * 4;
            && Six(Six(n / 4096, n / 64 % 64), n % 64) == n
            && n / 4096 < 64 && n / 1024 == a && n / 4 % 256 == b && n % 64 % 4 == 0
  {
    var n := Eight(a, b) * 4;
    DivIs(n, 4096, a1, a0 * 1024 + b * 4 as nat);
    DivIs(n, 64, a1 * 64 + a0 * 16 + b1, b0 * 4);
    DivIs(n / 64, 64, a1, a0 * 16 + b1);
    DivIs(n, 1024, a, b as nat * 4);
    DivIs(n, 4, Eight(a, b), 0);
    DivIs(Eight(a, b), 256, a, b);
    DivIs(b0 * 4, 4, b0, 0);
  }

  /** A run of sextets stands for its octets alone exactly when its odd bits are none or all zero. */
  lemma {:induction false} SextetsOfOctets(s: seq<sextet>)
    ensures Sextets(Octets(s)) == s <==> Odd(s) == 0 && |s| % 4 != 1
  {
    hide Octets, Odd, Full, Split;
    if Odd(s) == 0 && |s| % 4 != 1 {
      SextetsBack(s);
    } else if Sextets(Octets(s)) == s {
      OctetsOfSextets(Octets(s));
    }
  }

  lemma {:induction false} SextetsBack(s: seq<sextet>)
    requires Odd(s) == 0 && |s| % 4 != 1
    ensures Sextets(Octets(s)) == s
  {
    hide Full, Split;
    if |s| == 0 {
    } else if |s| == 2 {
      TwoBack(s[0], s[1]);
      assert s == [s[0], s[1]];
    } else if |s| == 3 {
      ThreeBack(s[0], s[1], s[2]);
      assert s == [s[0], s[1], s[2]];
    } else {
      var f := Full(s[0], s[1], s[2], s[3]);
      FullBack(s[0], s[1], s[2], s[3]);
      SextetsBack(s[4..]);
      hide Octets;
      FirstGroup(s);
      assert (f + Octets(s[4..]))[3..] == Octets(s[4..]);
      assert s == [s[0], s[1], s[2], s[3]] + s[4..];
    }
  }

  lemma TwoBack(a: sextet, b: sextet)
    requires Odd([a, b]) == 0
    ensures Sextets(Octets([a, b])) == [a, b]
  {
    var n := Six(a, b);
    DivIs(n, 16, a as nat * 4 + b / 16, b % 16);
    assert n == n / 16 * 16;
    DivIs(n, 64, a, b);
  }

  lemma ThreeBack(a: sextet, b: sextet, c: sextet)
    requires Odd([a, b, c]) == 0
    ensures Sextets(Octets([a, b, c])) == [a, b, c]
  {
    ThreeDigits(a, b, c, c / 4);
    hide Six, Eight;
  }

  lemma ThreeDigits(a: sextet, b: sextet, c: sextet, c1: nat)
    requires c == 4 * c1
    ensures var n := Six(Six(a, b), c);
            && Eight(n / 1024, n / 4 % 256) * 4 == n
            && n / 4096 == a && n / 64 % 64 == b && n % 64 == c && n / 1024 < 256
  {
    var m, n := Six(a, b), Six(Six(a, b), c);
    DivIs(n, 64, m, c);
    DivIs(m, 64, a, b);
    DivIs(n, 4096, a, b * 64 as nat + c);
    DivIs(n, 4, m * 16 + c1, 0);
    DivIs(n, 1024, n / 1024, n % 1024);
    DivIs(n / 4, 256, n / 1024, n % 1024 / 4);
  }

  lemma SixDivides(m: nat, v: sextet)
    ensures Six(m, v) / 64 == m && Six(m, v) % 64 == v
  {
    DivIs(Six(m, v), 64, m, v);
  }

  lemma SixTwice(m: nat, v: sextet, w: sextet)
    ensures Six(Six(m, v), w) / 4096 == m
  {
    DivIs(Six(Six(m, v), w), 4096, m, v as nat * 64 + w);
  }

  lemma SixThrice(m: nat, u: sextet, v: sextet, w: sextet)
    ensures Six(Six(Six(m, u), v), w) / 262144 == m
  {
    DivIs(Six(Six(Six(m, u), v), w), 262144, m, u as nat * 4096 + v as nat * 64 + w);
  }

  lemma EightBack(n: nat)
    requires n < 0x1000000
    ensures n / 65536 < 256 && Eight(Eight(n / 65536, n / 256 % 256), n % 256) == n
  {
    DivIs(n / 256, 256, n / 65536, n / 256 % 256);
  }

  lemma SixIsSmall(a: sextet, b: sextet, c: sextet, d: sextet)
    ensures Six(Six(Six(a, b), c), d) < 0x1000000
  {}

  lemma FullBack(a: sextet, b: sextet, c: sextet, d: sextet)
    ensures var f := Full(a, b, c, d); Split(f[0], f[1], f[2]) == [a, b, c, d]
  {
    hide Six, Eight;
    var n := Six(Six(Six(a, b), c), d);
    SixIsSmall(a, b, c, d);
    EightBack(n);
    SixThrice(a, b, c, d);
    SixTwice(Six(a, b), c, d);
    SixDivides(Six(Six(a, b), c), d);
    SixDivides(Six(a, b), c);
    SixDivides(a, b);
  }

  // ------------------------------------------------------------------
  // The alphabet
  // ------------------------------------------------------------------

  /** b64_table: the alphabet of RFC 4648, table 1. */
  function Letter(v: sextet): char {
    if v < 26 then 'A' + v as char
    else if v < 52 then 'a' + (v - 26) as char
    else if v < 62 then '0' + (v - 52) as char
    else if v == 62 then '+'
    else '/'
  }

  /** b64_index: the place of a character in the alphabet, or -1. */
  function Index(c: char): (v: int)
    ensures -1 <= v < 64
  {
    if 'A' <= c <= 'Z' then c as int - 'A' as int
    else if 'a' <= c <= 'z' then c as int - 'a' as int + 26
    else if '0' <= c <= '9' then c as int - '0' as int + 52
    else if c == '+' then 62
    else if c == '/' then 63
    else -1
  }

  const UPPER := "ABCDEFGHIJKLMNOPQRSTUVWXYZ"
  const LOWER := "abcdefghijklmnopqrstuvwxyz"
  const FIGURES := "0123456789"

  /** Table 1 of RFC 4648. */
  const ALPHABET := UPPER + LOWER + FIGURES + "+/"

  lemma LettersInOrder(v: nat)
    ensures |UPPER| == 26 && (v < 26 ==> UPPER[v] as int == 65 + v)
    ensures |LOWER| == 26 && (v < 26 ==> LOWER[v] as int == 97 + v)
  {}

  lemma FiguresInOrder(v: nat)
    ensures |FIGURES| == 10 && (v < 10 ==> FIGURES[v] as int == 48 + v)
  {}

  lemma AlphabetAt(v: sextet)
    ensures |ALPHABET| == 64
    ensures ALPHABET[v] == if v < 26 then UPPER[v] else if v < 52 then LOWER[v - 26] else if v < 62 then FIGURES[v - 52] else "+/"[v - 62]
  {
    LettersInOrder(0);
    FiguresInOrder(0);
    hide UPPER, LOWER, FIGURES;
  }

  /** The letter of each sextet is the one the table gives it, and the index is that letter's place. */
  lemma AlphabetIs(v: sextet, c: char)
    ensures |ALPHABET| == 64 && Letter(v) == ALPHABET[v]
    ensures Index(c) == v <==> c == ALPHABET[v]
  {
    AlphabetAt(v);
    LettersInOrder(if v < 26 then v else if v < 52 then v - 26 else 0);
    FiguresInOrder(if 52 <= v < 62 then v - 52 else 0);
    IndexIs(v, c);
    hide UPPER, LOWER, FIGURES, ALPHABET, Index;
  }

  lemma IndexIs(v: sextet, c: char)
    ensures Index(c) == v <==> c == Letter(v)
  {}

  predicate Blank(c: char) { c == ' ' || c == TAB || c == '\r' || c == '\n' }

  /** The table and the index are inverse, and no letter is a blank or the padding sign. */
  lemma LetterIsIndexed(v: sextet)
    ensures Index(Letter(v)) == v && !Blank(Letter(v)) && Letter(v) != '='
  {}

  // ------------------------------------------------------------------
  // Texts
  // ------------------------------------------------------------------

  /** The sextets of a text: its letters before the first padding sign or foreign character, blanks left out. */
  function Taken(text: string): seq<sextet> {
    if |text| == 0 then []
    else if Blank(text[0]) then Taken(text[1..])
    else if Index(text[0]) < 0 then []
    else [Index(text[0])] + Taken(text[1..])
  }

  /** A foreign character stands before the first padding sign. */
  predicate Faulty(text: string) {
    |text| > 0 && if Blank(text[0]) || Index(text[0]) >= 0 then Faulty(text[1..]) else text[0] != '='
  }

  /** No letter, no padding sign, and no space, tab or line break. */
  predicate Foreign(c: char) { c !in ALPHABET && c as int !in {0x3D, 0x20, 0x09, 0x0D, 0x0A} }

  lemma ForeignIs(c: char)
    ensures Foreign(c) <==> Index(c) < 0 && !Blank(c) && c != '='
  {
    hide ALPHABET, Index, Blank;
    LettersAre(c);
    BlanksAre(c);
  }

  lemma BlanksAre(c: char)
    ensures Blank(c) <==> c as int in {0x20, 0x09, 0x0D, 0x0A}
  {}

  lemma LettersAre(c: char)
    ensures c in ALPHABET <==> Index(c) >= 0
  {
    hide ALPHABET, Index;
    if Index(c) >= 0 {
      AlphabetIs(Index(c), c);
    }
    if c in ALPHABET {
      AlphabetIs(0, c);
      var k :| 0 <= k < |ALPHABET| && ALPHABET[k] == c;
      AlphabetIs(k, c);
    }
  }

  /** A text is at fault exactly if a foreign character stands in it before any padding sign. */
  lemma {:induction false} FaultyIs(text: string)
    ensures Faulty(text) <==> exists i :: 0 <= i < |text| && Foreign(text[i]) && '=' !in text[..i]
  {
    hide Foreign, Blank, Index;
    if |text| > 0 {
      var t := text[1..];
      FaultyIs(t);
      ForeignIs(text[0]);
      NotPadding(text[0]);
      if Faulty(t) && text[0] != '=' {
        var i :| 0 <= i < |t| && Foreign(t[i]) && '=' !in t[..i];
        assert text[i + 1] == t[i] && text[..i + 1] == [text[0]] + t[..i];
      }
      if Foreign(text[0]) { assert text[..0] == ""; }
      if i :| 0 <= i < |text| && Foreign(text[i]) && '=' !in text[..i] {
        if i > 0 {
          assert text[..i] == [text[0]] + t[..i - 1] && t[i - 1] == text[i];
          assert '=' !in t[..i - 1] && text[0] in text[..i];
        }
      }
    }
  }

  lemma NotPadding(c: char)
    ensures Blank(c) || Index(c) >= 0 ==> c != '='
    ensures Index('=') < 0 && !Blank('=')
  {}

  /** The decoder's answer; nothing is asked of what follows a padding sign. */
  predicate Refused(text: string, capacity: int) {
    var s := Taken(text);
    Faulty(text) || |Octets(s)| > capacity || (|s| % 4 == 1 && Odd(s) != 0)
  }

  function Letters(s: seq<sextet>): string {
    if |s| == 0 then "" else [Letter(s[0])] + Letters(s[1..])
  }

  function Padding(n: nat): string { if n % 3 == 1 then "==" else if n % 3 == 2 then "=" else "" }

  function Encoded(b: seq<byte>): string { Letters(Sextets(b)) + Padding(|b|) }

  function Strip(text: string): string {
    if |text| == 0 then "" else (if Blank(text[0]) then "" else [text[0]]) + Strip(text[1..])
  }

  // ------------------------------------------------------------------
  // Decoding undoes encoding
  // ------------------------------------------------------------------

  /** Blanks may stand anywhere. */
  lemma {:induction false} BlanksDoNotMatter(text: string)
    ensures Taken(Strip(text)) == Taken(text) && Faulty(Strip(text)) == Faulty(text)
  {
    if |text| > 0 {
      BlanksDoNotMatter(text[1..]);
      if Blank(text[0]) {
        assert Strip(text) == Strip(text[1..]);
      } else {
        assert Strip(text) == [text[0]] + Strip(text[1..]);
        assert ([text[0]] + Strip(text[1..]))[1..] == Strip(text[1..]);
      }
    }
  }

  lemma {:induction false} LettersAreTaken(s: seq<sextet>, rest: string)
    ensures Taken(Letters(s) + rest) == s + Taken(rest) && Faulty(Letters(s) + rest) == Faulty(rest)
  {
    if |s| == 0 {
      assert Letters(s) + rest == rest;
    } else {
      LetterIsIndexed(s[0]);
      LettersAreTaken(s[1..], rest);
      var more := Letters(s[1..]) + rest;
      assert Letters(s) + rest == [Letter(s[0])] + more;
      hide Letters, Letter, Index, Blank;
      TakenHead(Letter(s[0]), more);
      assert s == [s[0]] + s[1..];
      Assoc([s[0]], s[1..], Taken(rest));
    }
  }

  lemma TakenHead(c: char, more: string)
    requires Index(c) >= 0 && !Blank(c)
    ensures Taken([c] + more) == [Index(c)] + Taken(more) && Faulty([c] + more) == Faulty(more)
  {
    assert ([c] + more)[1..] == more;
  }

  lemma LettersBack(s: seq<sextet>)
    ensures Taken(Letters(s)) == s && !Faulty(Letters(s))
  {
    LettersAreTaken(s, "");
    hide Letters;
    assert Letters(s) + "" == Letters(s);
    assert s + [] == s;
  }

  lemma PaddingEndsIt(n: nat, junk: string)
    requires n % 3 != 0 || junk == ""
    ensures Taken(Padding(n) + junk) == [] && !Faulty(Padding(n) + junk)
  {}

  /** Decoding an encoded run of bytes, with blanks put in anywhere, gives the bytes whenever they fit. */
  lemma DecodeOfEncode(b: seq<byte>, text: string, capacity: int)
    requires Strip(text) == Encoded(b)
    ensures Octets(Taken(text)) == b && (Refused(text, capacity) <==> |b| > capacity)
  {
    hide Octets, Odd, Sextets, Taken, Faulty, Strip, Letters, Padding;
    BlanksDoNotMatter(text);
    LettersAreTaken(Sextets(b), Padding(|b|));
    PaddingEndsIt(|b|, "");
    OctetsOfSextets(b);
    assert Padding(|b|) + "" == Padding(|b|);
    assert Sextets(b) + [] == Sextets(b);
  }

  /** An accepted text with k letters stands for floor(6k / 8) bytes. */
  lemma AcceptedLength(text: string, capacity: int)
    requires !Refused(text, capacity)
    ensures |Octets(Taken(text))| == 6 * |Taken(text)| / 8 <= capacity
  {
    OctetCount(Taken(text));
  }

  /** After a padding sign anything goes: what follows it is never looked at. */
  lemma {:induction false} NothingAfterPadding(text: string, junk: string)
    ensures Taken(text + "=" + junk) == Taken(text) && Faulty(text + "=" + junk) == Faulty(text)
  {
    if |text| == 0 {
      assert (text + "=" + junk)[0] == '=';
    } else {
      assert (text + "=" + junk)[1..] == text[1..] + "=" + junk;
      NothingAfterPadding(text[1..], junk);
    }
  }

  /**
    Exactly the texts whose letters leave no odd bits are what encoding their own
    bytes writes, up to blanks, padding and what follows it: the decoder also takes
    others.
   */
  lemma EncodeOfDecode(text: string)
    ensures Letters(Sextets(Octets(Taken(text)))) == Letters(Taken(text))
            <==> Odd(Taken(text)) == 0 && |Taken(text)| % 4 != 1
  {
    hide *;
    var s := Taken(text);
    SextetsOfOctets(s);
    LettersBack(s);
    LettersBack(Sextets(Octets(s)));
  }

  /** A lone letter after whole groups: refused unless it is the zero sextet, which is dropped. */
  lemma LoneLetter(s: seq<sextet>, v: sextet, capacity: int)
    requires |s| % 4 == 0 && |Octets(s)| <= capacity
    ensures Refused(Letters(s + [v]), capacity) <==> v != 0
    ensures Octets(s + [v]) == Octets(s)
  {
    LettersBack(s + [v]);
    OneMoreSextet(s, v);
    hide Octets, Odd, Letters, Taken, Faulty;
  }

  // ------------------------------------------------------------------
  // Base64Encode
  // ------------------------------------------------------------------

  /** The four characters that the first three bytes, or what there is of them, become. */
  function Quad(a: byte, b: byte, c: byte, remaining: nat): string {
    var (i, j, k, l) := (a / 4, a % 4 * 16 + b / 16, b % 16 * 4 + c / 64, c % 64);
    [Letter(i), Letter(j)]
    + [if remaining > 1 then Letter(k) else '=']
    + [if remaining > 2 then Letter(l) else '=']
  }

  lemma TripleDigits(a: byte, b: byte, c: byte, a1: nat, a0: nat, b1: nat, b0: nat, c1: nat, c0: nat)
    requires a == a1 * 4 + a0 && b == b1 * 16 + b0 && c == c1 * 64 + c0 && a0 < 4 && b0 < 16 && c0 < 64
    ensures var n := Eight(Eight(a, b), c);
            && n / 262144 == a1 && n / 4096 % 64 == a0 * 16 + b1
            && n / 64 % 64 == b0 * 4 + c1 && n % 64 == c0
  {
    var n := Eight(Eight(a, b), c);
    DivIs(n, 262144, a1, a0 * 65536 + b as nat * 256 + c);
    DivIs(n, 4096, a1 * 64 + a0 * 16 + b1, b0 * 256 + c);
    DivIs(n / 4096, 64, a1, a0 * 16 + b1);
    DivIs(n, 64, a as nat * 1024 + b as nat * 4 + c1, c0);
    DivIs(n / 64, 64, a as nat * 16 + b1, b0 * 4 + c1);
  }

  lemma SplitIs(a: byte, b: byte, c: byte)
    ensures Split(a, b, c) == [a / 4, a % 4 * 16 + b / 16, b % 16 * 4 + c / 64, c % 64]
  {
    TripleDigits(a, b, c, a / 4, a % 4, b / 16, b % 16, c / 64, c % 64);
    hide Eight;
  }

  lemma {:induction false} LettersJoin(s: seq<sextet>, t: seq<sextet>)
    ensures Letters(s + t) == Letters(s) + Letters(t)
  {
    hide Letter;
    if |s| == 0 {
      assert s + t == t;
    } else {
      assert (s + t)[1..] == s[1..] + t;
      LettersJoin(s[1..], t);
    }
  }

  lemma LettersOf(s: seq<sextet>)
    ensures |s| == 2 ==> Letters(s) == [Letter(s[0]), Letter(s[1])]
    ensures |s| == 3 ==> Letters(s) == [Letter(s[0]), Letter(s[1]), Letter(s[2])]
    ensures |s| == 4 ==> Letters(s) == [Letter(s[0]), Letter(s[1]), Letter(s[2]), Letter(s[3])]
    ensures |s| == 0 ==> Letters(s) == ""
  {
    hide Letter;
    if |s| > 0 && |s[1..]| > 0 && |s[1..][1..]| > 0 && |s[1..][1..][1..]| > 0 {
      assert |s| == 4 ==> Letters(s[1..][1..][1..][1..]) == "";
    }
    assert |s| > 1 ==> s[1..][0] == s[1];
    assert |s| > 2 ==> s[1..][1..][0] == s[2];
    assert |s| > 3 ==> s[1..][1..][1..][0] == s[3];
  }

  /** Encoding goes group by group. */
  lemma EncodedStep(b: seq<byte>)
    requires |b| > 0
    ensures var (x, y) := (if |b| > 1 then b[1] else 0, if |b| > 2 then b[2] else 0);
            Encoded(b) == Quad(b[0], x, y, |b|) + Encoded(b[if |b| > 3 then 3 else |b|..])
  {
    hide *;
    EncodedNone();
    if |b| >= 3 {
      EncodedLong(b);
      QuadIsLetters(b[0], b[1], b[2], |b|);
      assert |b| == 3 ==> b[3..] == b[|b|..];
    } else if |b| == 2 {
      EncodedPair(b[0], b[1]);
      assert b == [b[0], b[1]] && b[2..] == [];
    } else {
      EncodedSingle(b[0]);
      assert b == [b[0]] && b[1..] == [];
    }
  }

  lemma EncodedNone()
    ensures Encoded([]) == ""
  {}

  lemma EncodedLong(b: seq<byte>)
    requires |b| >= 3
    ensures Encoded(b) == Letters(Split(b[0], b[1], b[2])) + Encoded(b[3..])
  {
    hide Split, Letters, Sextets;
    FirstTriple(b);
    LettersJoin(Split(b[0], b[1], b[2]), Sextets(b[3..]));
  }

  lemma QuadIsLetters(a: byte, b: byte, c: byte, n: nat)
    requires n >= 3
    ensures Quad(a, b, c, n) == Letters(Split(a, b, c))
  {
    SplitIs(a, b, c);
    LettersOf(Split(a, b, c));
    hide Split, Letters, Letter;
  }

  lemma EncodedPair(a: byte, b: byte)
    ensures Encoded([a, b]) == Quad(a, b, 0, 2)
  {
    ShortSextets(a, b, 2);
    LettersOf(Sextets([a, b]));
    hide Sextets, Letters, Letter;
  }

  lemma EncodedSingle(a: byte)
    ensures Encoded([a]) == Quad(a, 0, 0, 1)
  {
    ShortSextets(a, 0, 1);
    LettersOf(Sextets([a]));
    hide Sextets, Letters, Letter;
  }

  lemma ShortSextets(a: byte, b: byte, n: nat)
    requires n == 1 ==> b == 0
    ensures n == 1 ==> Sextets([a]) == [a / 4, a % 4 * 16 + b / 16]
    ensures n == 2 ==> Sextets([a, b]) == [a / 4, a % 4 * 16 + b / 16, b % 16 * 4]
  {
    TripleDigits(a, b, 0, a / 4, a % 4, b / 16, b % 16, 0, 0);
    if n == 1 {
      DivIs(a as nat * 16, 64, a / 4, a % 4 * 16);
    } else {
      var m := Eight(a, b) * 4;
      assert Eight(Eight(a, b), 0) == m * 64;
      DivIs(m, 4096, a / 4, a % 4 * 1024 + b as nat * 4);
      DivIs(m, 64, a as nat * 16 + b / 16, b % 16 * 4);
      DivIs(m / 64, 64, a / 4, a % 4 * 16 + b / 16);
    }
  }

  lemma {:induction false} EncodedLength(b: seq<byte>)
    ensures |Encoded(b)| == (|b| + 2) / 3 * 4
  {
    hide *;
    EncodedNone();
    if |b| == 0 {
      assert b == [];
    } else {
      EncodedStep(b);
      var (x, y) := (if |b| > 1 then b[1] else 0, if |b| > 2 then b[2] else 0);
      assert |Quad(b[0], x, y, |b|)| == 4 by { QuadLength(b[0], x, y, |b|); }
      EncodedLength(b[if |b| > 3 then 3 else |b|..]);
    }
  }

  lemma QuadLength(a: byte, b: byte, c: byte, n: nat)
    ensures |Quad(a, b, c, n)| == 4
  {
    hide Letter;
  }

  /** Three of the test vectors in section 10 of RFC 4648, one for each length of the last group. */
  lemma TestVectors()
    ensures Encoded([0x66]) == "Zg==" && Encoded([0x66, 0x6F]) == "Zm8=" && Encoded([0x66, 0x6F, 0x6F]) == "Zm9v"
  {
    VectorSextets();
    assert Letter(25) == 'Z' && Letter(32) == 'g' && Letter(38) == 'm' && Letter(60) == '8' && Letter(61) == '9' && Letter(47) == 'v';
    hide Sextets, Letter;
    ShortLetters(25, 32, 0, 0);
    ShortLetters(25, 38, 60, 0);
    ShortLetters(25, 38, 61, 47);
    assert "Zg" + "==" == "Zg==" && "Zm8" + "=" == "Zm8=" && "Zm9v" + "" == "Zm9v";
    hide Letters;
  }

  lemma VectorSextets()
    ensures Sextets([0x66]) == [25, 32] && Sextets([0x66, 0x6F]) == [25, 38, 60]
    ensures Sextets([0x66, 0x6F, 0x6F]) == [25, 38, 61, 47]
  {
    var b: seq<byte> := [0x66, 0x6F, 0x6F];
    assert b[3..] == [] && Sextets([]) == [] && Split(0x66, 0x6F, 0x6F) == [25, 38, 61, 47];
    assert Sextets(b) == Split(b[0], b[1], b[2]) + Sextets(b[3..]);
  }

  lemma ShortLetters(a: sextet, b: sextet, c: sextet, d: sextet)
    ensures Letters([a, b]) == [Letter(a), Letter(b)] && Letters([a, b, c]) == [Letter(a), Letter(b), Letter(c)]
    ensures Letters([a, b, c, d]) == [Letter(a), Letter(b), Letter(c), Letter(d)]
  {
    hide Letter;
    LettersBehind(b, []);
    LettersBehind(c, []);
    LettersBehind(d, []);
    LettersBehind(a, [b]);
    LettersBehind(b, [c]);
    LettersBehind(a, [b, c]);
    LettersBehind(c, [d]);
    LettersBehind(b, [c, d]);
    LettersBehind(a, [b, c, d]);
  }

  lemma LettersBehind(a: sextet, s: seq<sextet>)
    ensures Letters([a] + s) == [Letter(a)] + Letters(s) && Letters([]) == ""
  {
    hide Letter;
    assert ([a] + s)[1..] == s;
  }

  method Base64Encode(input: seq<byte>, out: array<char>, outSize: int) returns (n: int)
    requires outSize <= out.Length
    modifies out
    ensures if outSize < 1 || (input != [] && outSize < |Encoded(input)| + 1) then n == 0 && out[..] == old(out[..])
            else n == |Encoded(input)| && out[..] == Overwrite(old(out[..]), 0, Encoded(input) + [NUL])
  {
    hide Encoded, Overwrite, Quad, Letter;
    ghost var buf := out[..];
    EncodedLength(input);
    if outSize < 1 { return 0; }
    if |input| == 0 {
      out[0] := NUL;
      OverwriteIs(buf, 0, Encoded(input) + [NUL], out[..]);
      return 0;
    }
    if outSize < (|input| + 2) / 3 * 4 + 1 { return 0; }
    var pos, i := 0, 0;
    ghost var done: string, goal := "", Encoded(input);
    OverwriteNone(buf, 0);
    assert input[0..] == input && "" + goal == goal;
    while i < |input|
      invariant 0 <= i && pos == |done|
      invariant goal == done + Encoded(input[if i < |input| then i else |input|..])
      invariant out[..] == Overwrite(buf, 0, done)
    {
      var remaining := |input| - i;
      var a := input[i];
      var b := if remaining > 1 then input[i + 1] else 0;
      var c := if remaining > 2 then input[i + 2] else 0;
      ghost var was, q, rest := out[..], Quad(a, b, c, remaining), input[if remaining > 3 then i + 3 else |input|..];
      EncodedStep(input[i..]);
      EncodedLength(rest);
      QuadLength(a, b, c, remaining);
      DropDrop(input, i, if remaining > 3 then 3 else remaining);
      assert goal == done + (q + Encoded(rest));
      Assoc(done, q, Encoded(rest));
      out[pos] := Letter(a / 4);
      out[pos + 1] := Letter(a % 4 * 16 + b / 16);
      out[pos + 2] := if remaining > 1 then Letter(b % 16 * 4 + c / 64) else '=';
      out[pos + 3] := if remaining > 2 then Letter(c % 64) else '=';
      FourStored(was, out[..], pos, a, b, c, remaining);
      OverwriteTwice(buf, 0, done, q);
      pos, i, done := pos + 4, i + 3, done + q;
    }
    EncodedNone();
    assert input[|input|..] == [] && done + "" == done;
    ghost var was := out[..];
    out[pos] := NUL;
    OverwriteIs(was, pos, [NUL], out[..]);
    OverwriteTwice(buf, 0, done, [NUL]);
    n := pos;
  }

  lemma FourStored(was: seq<char>, now: seq<char>, pos: nat, a: byte, b: byte, c: byte, remaining: nat)
    requires pos + 4 <= |was| == |now|
    requires forall k :: 0 <= k < |was| && !(pos <= k < pos + 4) ==> now[k] == was[k]
    requires now[pos] == Letter(a / 4) && now[pos + 1] == Letter(a % 4 * 16 + b / 16)
    requires now[pos + 2] == if remaining > 1 then Letter(b % 16 * 4 + c / 64) else '='
    requires now[pos + 3] == if remaining > 2 then Letter(c % 64) else '='
    ensures |Quad(a, b, c, remaining)| == 4 && now == Overwrite(was, pos, Quad(a, b, c, remaining))
  {
    hide Letter, Overwrite;
    OverwriteIs(was, pos, Quad(a, b, c, remaining), now);
  }

  // ------------------------------------------------------------------
  // Base64Decode
  // ------------------------------------------------------------------

  /** The 32-bit word after one more sextet has been shifted in. */
  function Shifted(buf: nat, v: sextet): nat { buf * 64 % U32 + v }

  lemma ShiftedIs(buf: nat, v: sextet) returns (k: nat)
    ensures Shifted(buf, v) == buf * 64 - k * 0x1_0000_0000 + v && v <= Shifted(buf, v) < 0x1_0000_0000
  {
    k := buf * 64 / U32;
    DivSpecWord(buf * 64);
  }

  lemma DivSpecWord(n: nat)
    ensures n == n / U32 * U32 + n % U32 && n % U32 < U32
    ensures n % 64 == 0 ==> n % U32 + 63 < U32
  {}

  /** What wraps out of the word is never a bit that is still to be read. */
  lemma WrapIsHarmless(buf: nat, w: nat, odd: nat, v: sextet)
    requires w in {0, 2, 4, 6} && odd < Pow2(w) && buf % Pow2(w) == odd
    ensures Shifted(buf, v) < U32
    ensures w == 0 ==> Shifted(buf, v) % Pow2(6) == v
    ensures w > 0 ==> Shifted(buf, v) / Pow2(w - 2) % 256 == Six(odd, v) / Pow2(w - 2) % 256
    ensures w > 0 ==> Shifted(buf, v) % Pow2(w - 2) == Six(odd, v) % Pow2(w - 2)
  {
    SmallPowers();
    SixIs(odd, v);
    var k := ShiftedIs(buf, v);
    hide Six, Pow2, Shifted;
    if w == 0 {
      DivIs(Shifted(buf, v), 64, buf - k * 0x400_0000, v);
    } else if w == 2 {
      Multiple(Shifted(buf, v), Six(odd, v), 256, 1, buf / 4 - k * 0x100_0000);
    } else if w == 4 {
      Multiple(Shifted(buf, v), Six(odd, v), 1024, 4, buf / 16 - k * 0x40_0000);
    } else {
      Multiple(Shifted(buf, v), Six(odd, v), 4096, 16, buf / 64 - k * 0x10_0000);
    }
  }

  lemma SixIs(odd: nat, v: sextet)
    ensures Six(odd, v) == odd * 64 + v
  {}

  /** Whole multiples of 256 * d above t do not show in the octet at d or below it. */
  lemma Multiple(x: nat, t: nat, m: nat, d: nat, h: int)
    requires d > 0 && m == 256 * d && x == h * m + t && t < m
    ensures x / d % 256 == t / d % 256 && x % d == t % d
  {
    Regrouped(h, d);
    assert h >= 0 by { if h < 0 { TimesGrow(1, -h, m); } }
    DivSpec(t, d);
    hide Times;
    TimesStep(t / d, d);
    DivIs(x, d, h * 256 + t / d, t % d);
    DivIs(x / d, 256, h + t / d / 256, t / d % 256);
  }

  lemma Regrouped(h: int, d: nat)
    ensures h * (256 * d) == (h * 256) * d
    ensures forall q: nat :: (h * 256 + q) * d == h * 256 * d + q * d
  {}

  /** More sextets only add octets at the end. */
  lemma {:induction false} OctetsGrow(s: seq<sextet>, more: seq<sextet>)
    ensures |Octets(s)| <= |Octets(s + more)| && Octets(s + more)[..|Octets(s)|] == Octets(s)
    decreases |more|
  {
    hide Octets, Odd, Pow2, OddBits, Six;
    if |more| == 0 {
      assert s + more == s;
    } else {
      OneMoreSextet(s, more[0]);
      OctetsGrow(s + [more[0]], more[1..]);
      assert s + [more[0]] + more[1..] == s + more;
    }
  }

  /**
    The buffer after decoding: all bytes and a terminator, or the bytes there was
    room for. The terminator may stand at out[outSize].
   */
  ghost predicate Outcome(was: seq<byte>, now: seq<byte>, text: string, outSize: int, n: int)
    requires 1 <= outSize < |was|
  {
    var os := Octets(Taken(text));
    if Refused(text, outSize) then n == -1 && now == Overwrite(was, 0, os[..if |os| < outSize then |os| else outSize])
    else n == |os| && now == Overwrite(was, 0, os + [0])
  }

  method Base64Decode(text: string, out: array<byte>, outSize: int) returns (n: int)
    requires outSize < out.Length
    modifies out
    ensures if outSize < 1 then n == -1 && out[..] == old(out[..]) else Outcome(old(out[..]), out[..], text, outSize, n)
  {
    hide *;
    ghost var was := out[..];
    if outSize < 1 { return -1; }
    if |text| == 0 {
      out[0] := 0;
      EmptyText(was, out[..], outSize);
      assert text == [];
      return 0;
    }
    var buf: nat, bits: nat, pos := 0, 0, 0;
    ghost var seen: seq<sextet> := [];
    Begin(was, text, outSize);
    var i := 0;
    while i < |text|
      invariant i <= |text|
      invariant Midway(was, out[..], text, outSize, seen, i, buf, bits, pos)
    {
      var c := text[i];
      if Blank(c) {
        SkipBlank(was, out[..], text, outSize, seen, i, buf, bits, pos);
      } else if c == '=' {
        break;
      } else {
        var val := Index(c);
        if val < 0 {
          FaultHere(was, out[..], text, outSize, seen, i, buf, bits, pos);
          return -1;
        }
        ghost var mid, w, from := out[..], bits, buf;
        TakeLetter(was, mid, text, outSize, seen, i, buf, bits, pos, val);
        buf := Shifted(buf, val);
        bits := bits + 6;
        while bits >= 8
          invariant bits == w + 6 || bits + 2 == w
          invariant if bits == w + 6 then out[..] == mid && pos == |Octets(seen)|
                    else pos == |Octets(seen)| + 1 <= outSize
                         && out[..] == Overwrite<byte>(mid, |Octets(seen)|, [buf / Pow2(bits) % 256])
        {
          if pos >= outSize {
            NoRoom(was, mid, text, outSize, seen, i, val, pos);
            return -1;
          }
          bits := bits - 8;
          out[pos] := buf / Pow2(bits) % 256;
          OverwriteIs<byte>(mid, pos, [buf / Pow2(bits) % 256], out[..]);
          pos := pos + 1;
        }
        NextLetter(was, mid, out[..], text, outSize, seen, i, from, w, bits, pos, val);
        seen := seen + [val];
      }
      i := i + 1;
    }
    AllTaken(was, out[..], text, outSize, seen, i, buf, bits, pos);
    if bits >= 6 {
      var rest := buf % Pow2(bits);
      if rest != 0 { return -1; }
    }
    ghost var last := out[..];
    out[pos] := 0;
    OverwriteIs(last, pos, [0], out[..]);
    Terminated(was, last, text, outSize, pos);
    n := pos;
  }

  // ------------------------------------------------------------------
  // The decoder's loop
  // ------------------------------------------------------------------

  /** `seen` are the sextets before i. */
  predicate Before(text: string, seen: seq<sextet>, i: nat) {
    i <= |text| && Taken(text) == seen + Taken(text[i..]) && Faulty(text) == Faulty(text[i..])
  }

  /** Their odd bits lie in the word. */
  predicate InWord(seen: seq<sextet>, buf: nat, bits: nat) {
    bits == OddBits(|seen|) && buf < U32 && buf % Pow2(bits) == Odd(seen)
  }

  /** Their octets are stored. */
  ghost predicate InBuffer(was: seq<byte>, now: seq<byte>, outSize: int, seen: seq<sextet>, pos: int) {
    1 <= outSize < |was| == |now| && pos == |Octets(seen)| <= outSize && now == Overwrite(was, 0, Octets(seen))
  }

  ghost predicate Midway(was: seq<byte>, now: seq<byte>, text: string, outSize: int,
                         seen: seq<sextet>, i: nat, buf: nat, bits: nat, pos: int)
  {
    Before(text, seen, i) && InWord(seen, buf, bits) && InBuffer(was, now, outSize, seen, pos)
  }

  lemma EmptyText(was: seq<byte>, now: seq<byte>, outSize: int)
    requires 1 <= outSize < |was| == |now| && now[0] == 0 && now[1..] == was[1..]
    ensures Outcome(was, now, [], outSize, 0)
  {
    assert Octets(Taken([])) + [0] == [0];
  }

  lemma Begin(was: seq<byte>, text: string, outSize: int)
    requires 1 <= outSize < |was|
    ensures Midway(was, was, text, outSize, [], 0, 0, 0, 0)
  {
    assert text[0..] == text && [] + Taken(text) == Taken(text);
    SmallPowers();
    OverwriteNone(was, 0);
    hide Taken, Faulty, Overwrite;
  }

  lemma TextAt(text: string, i: nat)
    requires i < |text|
    ensures var (t, u) := (text[i..], text[i + 1..]);
            && Taken(t) == (if Blank(text[i]) then Taken(u) else if Index(text[i]) < 0 then [] else [Index(text[i])] + Taken(u))
            && Faulty(t) == (if Blank(text[i]) || Index(text[i]) >= 0 then Faulty(u) else text[i] != '=')
  {
    assert text[i..][1..] == text[i + 1..];
    hide Blank, Index;
  }

  lemma SkipBlank(was: seq<byte>, now: seq<byte>, text: string, outSize: int,
                  seen: seq<sextet>, i: nat, buf: nat, bits: nat, pos: int)
    requires i < |text| && Midway(was, now, text, outSize, seen, i, buf, bits, pos) && Blank(text[i])
    ensures Midway(was, now, text, outSize, seen, i + 1, buf, bits, pos)
  {
    hide Taken, Faulty, Blank, Index, Octets, Odd, OddBits, Pow2, Overwrite;
    TextAt(text, i);
  }

  lemma FaultHere(was: seq<byte>, now: seq<byte>, text: string, outSize: int,
                  seen: seq<sextet>, i: nat, buf: nat, bits: nat, pos: int)
    requires i < |text| && Midway(was, now, text, outSize, seen, i, buf, bits, pos)
    requires !Blank(text[i]) && text[i] != '=' && Index(text[i]) < 0
    ensures 1 <= outSize < |was| && Outcome(was, now, text, outSize, -1)
  {
    hide Taken, Faulty, Blank, Index, Octets, Odd, OddBits, Pow2, Overwrite;
    TextAt(text, i);
    assert seen + [] == seen;
    assert Octets(seen)[..|Octets(seen)|] == Octets(seen);
  }

  /** The next letter's bits, in the word and in the sextets. */
  lemma TakeLetter(was: seq<byte>, now: seq<byte>, text: string, outSize: int,
                   seen: seq<sextet>, i: nat, buf: nat, bits: nat, pos: int, val: sextet)
    requires i < |text| && Midway(was, now, text, outSize, seen, i, buf, bits, pos)
    requires !Blank(text[i]) && val == Index(text[i])
    ensures bits in {0, 2, 4, 6} && bits == OddBits(|seen|) && pos == |Octets(seen)| <= outSize < |was| == |now|
    ensures Before(text, seen + [val], i + 1) && Joined(seen, buf, bits, val)
    ensures bits > 0 ==> |Octets(seen + [val])| == |Octets(seen)| + 1
    ensures now == Overwrite(was, 0, Octets(seen)) && 1 <= outSize
  {
    hide Taken, Faulty, Blank, Index, Octets, Odd, Pow2, Overwrite, Six, Shifted;
    TextAt(text, i);
    Assoc(seen, [val], Taken(text[i + 1..]));
    OneMoreSextet(seen, val);
    assert |seen| % 4 in {0, 1, 2, 3};
    WrapIsHarmless(buf, bits, Odd(seen), val);
  }

  /** What one more sextet adds, read off the word. */
  ghost predicate Joined(seen: seq<sextet>, buf: nat, w: nat, val: sextet) {
    var x := Shifted(buf, val);
    && x < U32
    && (w == 0 ==> x % Pow2(6) == Odd(seen + [val]) && Octets(seen + [val]) == Octets(seen))
    && (w > 1 ==> x % Pow2(w - 2) == Odd(seen + [val]) && Octets(seen + [val]) == Octets(seen) + [x / Pow2(w - 2) % 256])
  }

  lemma NoRoom(was: seq<byte>, now: seq<byte>, text: string, outSize: int,
               seen: seq<sextet>, i: nat, val: sextet, pos: int)
    requires i < |text| && 1 <= outSize < |was| && pos == |Octets(seen)| == outSize
    requires now == Overwrite(was, 0, Octets(seen)) && Before(text, seen + [val], i + 1)
    requires |Octets(seen + [val])| == |Octets(seen)| + 1
    ensures Outcome(was, now, text, outSize, -1)
  {
    hide Taken, Faulty, Octets, Odd, Overwrite;
    OctetsGrow(seen + [val], Taken(text[i + 1..]));
    OctetsGrow(seen, [val] + Taken(text[i + 1..]));
    Assoc(seen, [val], Taken(text[i + 1..]));
  }

  lemma NextLetter(was: seq<byte>, mid: seq<byte>, now: seq<byte>, text: string, outSize: int,
                   seen: seq<sextet>, i: nat, from: nat, w: nat, bits: nat, pos: int, val: sextet)
    requires Before(text, seen + [val], i + 1) && Joined(seen, from, w, val) && w == OddBits(|seen|)
    requires 1 <= outSize < |was| && |Octets(seen)| <= outSize && mid == Overwrite(was, 0, Octets(seen))
    requires if w == 0 then bits == 6 && now == mid && pos == |Octets(seen)|
             else bits + 2 == w && pos == |Octets(seen)| + 1 <= outSize
                  && now == Overwrite<byte>(mid, |Octets(seen)|, [Shifted(from, val) / Pow2(bits) % 256])
    ensures Midway(was, now, text, outSize, seen + [val], i + 1, Shifted(from, val), bits, pos)
  {
    hide Before, Octets, Odd, Pow2, Overwrite, Shifted;
    assert InWord(seen + [val], Shifted(from, val), bits);
    var x: byte := Shifted(from, val) / Pow2(bits) % 256;
    assert Octets(seen + [val]) == if w == 0 then Octets(seen) else Octets(seen) + [x];
    hide InWord, Joined;
    if w > 0 { OverwriteTwice<byte>(was, 0, Octets(seen), [x]); }
  }

  lemma AllTaken(was: seq<byte>, now: seq<byte>, text: string, outSize: int,
                 seen: seq<sextet>, i: nat, buf: nat, bits: nat, pos: int)
    requires Midway(was, now, text, outSize, seen, i, buf, bits, pos)
    requires i < |text| ==> text[i] == '=' && !Blank(text[i])
    ensures 1 <= outSize < |was| == |now| && 0 <= pos <= outSize && bits <= 6
    ensures seen == Taken(text) && now == Overwrite(was, 0, Octets(seen)) && pos == |Octets(seen)|
    ensures bits >= 6 && buf % Pow2(bits) != 0 ==> Outcome(was, now, text, outSize, -1)
    ensures !(bits >= 6 && buf % Pow2(bits) != 0) ==> !Refused(text, outSize)
  {
    if i < |text| { TextAt(text, i); } else { assert text[i..] == []; }
    hide Octets, Odd, Pow2, Overwrite;
    assert seen + [] == seen;
    assert seen == Taken(text) && !Faulty(text);
    hide Taken, Faulty;
    assert bits == 6 <==> |seen| % 4 == 1;
    assert Octets(seen)[..|Octets(seen)|] == Octets(seen);
  }

  lemma Terminated(was: seq<byte>, last: seq<byte>, text: string, outSize: int, pos: int)
    requires 1 <= outSize < |was| && pos == |Octets(Taken(text))| <= outSize && !Refused(text, outSize)
    requires last == Overwrite(was, 0, Octets(Taken(text)))
    ensures Outcome(was, Overwrite(last, pos, [0]), text, outSize, pos)
  {
    OverwriteTwice(was, 0, Octets(Taken(text)), [0]);
    hide Octets, Taken, Overwrite;
  }
}
