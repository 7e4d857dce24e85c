/**
  The arithmetic guards of src/mem_ops.c. Every intermediate value is a 32-bit one
  by its type, so nothing here can wrap unnoticed.
 */
module MemGuards {
  import opened Text
  import opened Digits

  const MAX: u32 := 0xFFFF_FFFF

  // ------------------------------------------------------------------
  // Addresses and lengths on the wire
  // ------------------------------------------------------------------

  predicate HexPrefixed(s: string) { |s| >= 2 && s[0] == '0' && (s[1] == 'x' || s[1] == 'X') }

  function Base(s: string): nat { if HexPrefixed(s) then 16 else 10 }

  function DigitsOf(s: string): string { if HexPrefixed(s) then s[2..] else s }

  /** The number that a wire string spells, if it spells one of 32 bits. */
  function Spelled(s: string): Option<u32> {
    var (d, b) := (DigitsOf(s), Base(s));
    if |d| > 0 && AllDigits(d, b) && Number(d, b) <= MAX then Some(Number(d, b)) else None
  }

  method MemParseU32(s: string) returns (r: Option<u32>)
    ensures r == Spelled(s)
  {
    hide Number, AllDigits, Digit;
    if |s| == 0 { return None; }
    var isHex, p := false, 0;
    if s[0] == '0' && |s| > 1 && (s[1] == 'x' || s[1] == 'X') {
      isHex, p := true, 2;
      if |s| == 2 { return None; }
    }
    ghost var d, b := DigitsOf(s), Base(s);
    var val: u32, sawDigit := 0, false;
    assert d[..0] == "";
    NumberOfNothing(b);
    ghost var from := p;
    while p < |s|
      invariant from <= p <= |s| && sawDigit == (p > from)
      invariant val == Number(d[..p - from], b)
      invariant forall k :: 0 <= k < p - from ==> IsDigit(d[k], b)
    {
      var c := s[p];
      assert c == d[p - from];
      var digit: u32;
      if '0' <= c <= '9' {
        digit := c as int - '0' as int;
      } else if isHex && 'a' <= c <= 'f' {
        digit := c as int - 'a' as int + 10;
      } else if isHex && 'A' <= c <= 'F' {
        digit := c as int - 'A' as int + 10;
      } else {
        NotADigit(d, p - from, b);
        return None;
      }
      DigitIs(c, digit, b);
      NumberStep(d, p - from, b);
      NumberGrows(d, p - from + 1, b);
      if isHex {
        if val > MAX / 16 { return None; }
        val := val * 16 + digit;
      } else {
        if val > MAX / 10 { return None; }
        val := val * 10;
        if val > MAX - digit { return None; }
        val := val + digit;
      }
      sawDigit, p := true, p + 1;
    }
    assert d[..|d|] == d;
    AreDigits(d, b);
    if !sawDigit { return None; }
    r := Some(val);
  }

  lemma NotADigit(d: string, k: nat, b: nat)
    requires k < |d| && (b == 10 || b == 16)
    requires !('0' <= d[k] <= '9') && (b == 16 ==> !('a' <= d[k] <= 'f') && !('A' <= d[k] <= 'F'))
    ensures !AllDigits(d, b)
  {
    assert !IsDigit(d[k], b);
  }

  lemma DigitIs(c: char, digit: u32, b: nat)
    requires b == 10 || b == 16
    requires ('0' <= c <= '9' && digit == c as int - '0' as int)
             || (b == 16 && 'a' <= c <= 'f' && digit == c as int - 'a' as int + 10)
             || (b == 16 && 'A' <= c <= 'F' && digit == c as int - 'A' as int + 10)
    ensures Digit(c) == digit && IsDigit(c, b)
  {}

  lemma AreDigits(d: string, b: nat)
    ensures (forall k :: 0 <= k < |d| ==> IsDigit(d[k], b)) <==> AllDigits(d, b)
  {}

  /** What the device prints of a 32-bit number in decimal is read back as that number. */
  lemma ParseOfDecimal(n: nat)
    ensures Spelled(Decimal(n)) == if n <= 4294967295 then Some(n) else None
  {
    DecimalValue(n);
    var s := Decimal(n);
    assert |s| > 1 ==> IsDigit(s[1], 10);
  }

  /** And in hexadecimal, in either case, behind either prefix; a prefix alone is no number. */
  lemma ParseOfHexadecimal(n: nat, upper: bool)
    ensures Spelled("0x" + Hexadecimal(n, upper)) == if n <= 4294967295 then Some(n) else None
    ensures Spelled("0X" + Hexadecimal(n, upper)) == if n <= 4294967295 then Some(n) else None
    ensures Spelled("0x") == None && Spelled("0X") == None && Spelled("") == None
  {
    HexadecimalValue(n, upper);
    var d := Hexadecimal(n, upper);
    assert ("0x" + d)[2..] == d && ("0X" + d)[2..] == d;
    hide Hexadecimal, Number, AllDigits;
  }

  // ------------------------------------------------------------------
  // Ranges
  // ------------------------------------------------------------------

  method MemRangeInBounds(addr: u32, len: u32, cap: u32) returns (ok: bool)
    ensures ok <==> len <= cap && addr + len <= MAX
  {
    if len > cap { return false; }
    var room: u32 := MAX - len;
    if addr > room { return false; }
    ok := true;
  }

  // ------------------------------------------------------------------
  // The region that a pre-NT access may touch
  // ------------------------------------------------------------------

  const PAGE_NOACCESS: u32 := 0x01
  const PAGE_READWRITE: u32 := 0x04
  const PAGE_WRITECOPY: u32 := 0x08
  const PAGE_EXECUTE_READWRITE: u32 := 0x40
  const PAGE_EXECUTE_WRITECOPY: u32 := 0x80
  const PAGE_GUARD: u32 := 0x100

  /** What VirtualQuery says of a region; `committed` is State == MEM_COMMIT. */
  datatype Region = Region(base: u32, size: u32, committed: bool, protect: u32)

  predicate Guarded(protect: u32) { protect / PAGE_GUARD % 2 == 1 }

  predicate Writable(protect: u32) {
    protect in {PAGE_READWRITE, PAGE_WRITECOPY, PAGE_EXECUTE_READWRITE, PAGE_EXECUTE_WRITECOPY}
  }

  /** One byte may be touched: it lies in the region and the region lets it. */
  predicate MayTouch(m: Region, a: int, forWrite: bool) {
    && m.committed && !Guarded(m.protect) && m.protect != PAGE_NOACCESS && (forWrite ==> Writable(m.protect))
    && m.base <= a < m.base + m.size
  }

  /** The four writable protections, the guard bit and the one that allows nothing, by their numbers. */
  lemma ProtectionsAre(m: Region, a: int)
    ensures MayTouch(m, a, true) <==>
              m.committed && m.protect in {0x04, 0x08, 0x40, 0x80} && m.base <= a < m.base + m.size
    ensures MayTouch(m, a, false) <==>
              m.committed && m.protect / 0x100 % 2 == 0 && m.protect != 0x01 && m.base <= a < m.base + m.size
  {}

  method MemRegionAccessibleDecision(m: Region, addr: u32, len: u32, forWrite: bool) returns (n: u32)
    ensures n == Reach(m, addr, len, forWrite)
  {
    if !m.committed { return 0; }
    if Guarded(m.protect) { return 0; }
    if m.protect == PAGE_NOACCESS { return 0; }
    if forWrite && !Writable(m.protect) { return 0; }
    var regionEnd: u32 := (m.base + m.size) % 0x1_0000_0000;
    if addr < m.base || addr >= regionEnd { return 0; }
    var avail: u32 := regionEnd - addr;
    if avail >= len { return len; }
    n := avail;
  }

  function Reach(m: Region, addr: u32, len: u32, forWrite: bool): (n: u32) {
    var end := (m.base + m.size) % 0x1_0000_0000;
    if !m.committed || Guarded(m.protect) || m.protect == PAGE_NOACCESS || (forWrite && !Writable(m.protect)) then 0
    else if addr < m.base || addr >= end then 0
    else if end - addr >= len then len
    else end - addr
  }

  /** Nothing past the region is ever offered, whatever the numbers. */
  lemma ReachIsSafe(m: Region, addr: u32, len: u32, forWrite: bool)
    ensures var n := Reach(m, addr, len, forWrite);
            n <= len && forall a :: addr <= a < addr + n ==> MayTouch(m, a, forWrite)
  {}

  /** For a region that ends below 4 GB the offer is the longest prefix that may be touched. */
  lemma ReachIsLongest(m: Region, addr: u32, len: u32, forWrite: bool)
    requires m.base + m.size <= MAX
    ensures var n := Reach(m, addr, len, forWrite); n < len ==> !MayTouch(m, addr + n, forWrite)
  {}

  /** The whole range is offered exactly if every byte of it may be touched and the region ends below 4 GB. */
  lemma WholeIsOffered(m: Region, addr: u32, len: u32, forWrite: bool)
    ensures Reach(m, addr, len, forWrite) == len <==>
              len == 0 || (m.base + m.size < 0x1_0000_0000 && forall a :: addr <= a < addr + len ==> MayTouch(m, a, forWrite))
  {
    if len > 0 {
      assert addr <= addr + len - 1 < addr + len;
      if m.base + m.size < 0x1_0000_0000 && forall a :: addr <= a < addr + len ==> MayTouch(m, a, forWrite) {
        assert MayTouch(m, addr, forWrite) && MayTouch(m, addr + len - 1, forWrite);
      }
    }
  }

  /**
    Exactly when the region ends below 4 GB is a touchable first byte offered: the
    end of a region that reaches 4 GB wraps to zero and nothing in it is.
   */
  lemma ReachOfTouchable(m: Region, addr: u32, len: u32, forWrite: bool)
    requires len > 0 && MayTouch(m, addr, forWrite) && m.base + m.size <= MAX + 1
    ensures Reach(m, addr, len, forWrite) > 0 <==> m.base + m.size <= MAX
  {}
}
