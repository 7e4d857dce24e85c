/** Numbers as text: the value of a run of digits, and the decimal digits of a value. */
module Digits {
  /** The value of a digit, letters standing for ten and up; -1 for anything else. */
  function Digit(c: char): (d: int)
    ensures -1 <= d < 16
  {
    if '0' <= c <= '9' then c as int - '0' as int
    else if 'a' <= c <= 'f' then c as int - 'a' as int + 10
    else if 'A' <= c <= 'F' then c as int - 'A' as int + 10
    else -1
  }

  predicate IsDigit(c: char, base: nat) { 0 <= Digit(c) < base }

  predicate AllDigits(s: string, base: nat) { forall i :: 0 <= i < |s| ==> IsDigit(s[i], base) }

  /** The value of a run of digits, most significant first, as an unbounded integer. */
  function Number(s: string, base: nat): nat {
    if |s| == 0 then 0 else Number(s[..|s| - 1], base) * base + if Digit(s[|s| - 1]) < 0 then 0 else Digit(s[|s| - 1])
  }

  function DecimalDigit(d: nat): (c: char)
    requires d < 10
    ensures Digit(c) == d && IsDigit(c, 10)
  {
    '0' + d as char
  }

  function Decimal(n: nat): (s: string)
    ensures |s| > 0 && AllDigits(s, 10)
  {
    if n < 10 then [DecimalDigit(n)] else Decimal(n / 10) + [DecimalDigit(n % 10)]
  }

  lemma {:induction false} DecimalValue(n: nat)
    ensures Number(Decimal(n), 10) == n
  {
    var s := Decimal(n);
    if n < 10 {
      assert s[..0] == "";
    } else {
      DecimalValue(n / 10);
      assert s[..|s| - 1] == Decimal(n / 10);
    }
  }

  function HexDigit(d: nat, upper: bool): (c: char)
    requires d < 16
    ensures Digit(c) == d && IsDigit(c, 16)
  {
    if d < 10 then '0' + d as char else (if upper then 'A' else 'a') + (d - 10) as char
  }

  /** The hexadecimal digits of a number, in either case. */
  function Hexadecimal(n: nat, upper: bool): (s: string)
    ensures |s| > 0 && AllDigits(s, 16)
  {
    if n < 16 then [HexDigit(n, upper)] else Hexadecimal(n / 16, upper) + [HexDigit(n % 16, upper)]
  }

  lemma {:induction false} HexadecimalValue(n: nat, upper: bool)
    ensures Number(Hexadecimal(n, upper), 16) == n
  {
    var s := Hexadecimal(n, upper);
    if n < 16 {
      assert s[..0] == "";
    } else {
      HexadecimalValue(n / 16, upper);
      assert s[..|s| - 1] == Hexadecimal(n / 16, upper);
    }
  }

  lemma DecimalIsInjective(m: nat, n: nat)
    requires Decimal(m) == Decimal(n)
    ensures m == n
  {
    DecimalValue(m);
    DecimalValue(n);
  }

  /** A number is never smaller than what its first digits say. */
  lemma {:induction false} NumberGrows(s: string, k: nat, base: nat)
    requires k <= |s| && base > 0
    ensures Number(s[..k], base) <= Number(s, base)
    decreases |s|
  {
    if k < |s| {
      var t := s[..|s| - 1];
      NumberGrows(t, k, base);
      assert t[..k] == s[..k];
      Scaled(Number(t, base), base);
    } else {
      assert s[..k] == s;
    }
  }

  lemma Scaled(n: nat, base: nat)
    requires base > 0
    ensures n <= n * base
  {}

  lemma NumberStep(s: string, i: nat, base: nat)
    requires i < |s| && 0 <= Digit(s[i])
    ensures Number(s[..i + 1], base) == Number(s[..i], base) * base + Digit(s[i])
  {
    var t := s[..i + 1];
    assert t[..|t| - 1] == s[..i] && t[|t| - 1] == s[i];
  }

  lemma NumberOfNothing(base: nat)
    ensures Number("", base) == 0
  {}

  /** Two runs of digits before the same kind of mark are the same run. */
  lemma DigitsUpTo(a: string, x: string, b: string, y: string, mark: char)
    requires AllDigits(a, 10) && AllDigits(b, 10) && !IsDigit(mark, 10) && a + [mark] + x == b + [mark] + y
    ensures a == b
  {
    var s := a + [mark] + x;
    assert s[|a|] == mark && s[|b|] == mark;
    assert forall i :: 0 <= i < |a| ==> s[i] == a[i] && IsDigit(s[i], 10);
    assert forall i :: 0 <= i < |b| ==> s[i] == b[i] && IsDigit(s[i], 10);
    assert |a| == |b|;
    assert a == s[..|a|] && b == s[..|b|];
  }
}
