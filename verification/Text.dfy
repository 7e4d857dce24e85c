/**
  What the other modules share: bytes, UTF-16 code units, 32-bit words, the outcome of
  one conversion, optional values, buffers and the blanks between arguments.
 */
module Text {
  type byte = b: int | 0 <= b < 0x100
  type unit = u: int | 0 <= u < 0x10000

  /** The values of 32 bits, and how many there are. */
  type u32 = n: int | 0 <= n < 0x1_0000_0000
  const U32: nat := 0x1_0000_0000

  /** U+FFFD, written for anything that cannot be decoded or encoded. */
  const REPLACEMENT: unit := 0xFFFD

  datatype Status = Fine | Lossy | Rejected | Truncated

  datatype Option<+T> = None | Some(value: T)

  /** What a condition adds to a count. */
  function One(b: bool): nat { if b then 1 else 0 }

  predicate IsSpace(c: char) { c == ' ' || c == '\t' }

  function SkipSpaces(s: string): (r: string)
    ensures |r| <= |s| && (r != "" ==> !IsSpace(r[0]))
  {
    if |s| > 0 && IsSpace(s[0]) then SkipSpaces(s[1..]) else s
  }

  /** Two cuts of one sequence make the cut at the sum. */
  lemma DropDrop<T>(s: seq<T>, i: nat, j: nat)
    requires i + j <= |s|
    ensures s[i..][j..] == s[i + j..]
  {}

  lemma Assoc<T>(a: seq<T>, b: seq<T>, c: seq<T>)
    ensures a + b + c == a + (b + c)
  {}

  /** The buffer after `text` has been stored at `at`; nothing else in it changes. */
  function Overwrite<T>(buf: seq<T>, at: nat, text: seq<T>): (r: seq<T>)
    requires at + |text| <= |buf|
    ensures |r| == |buf|
  {
    buf[..at] + text + buf[at + |text|..]
  }

  lemma OverwriteNone<T>(buf: seq<T>, at: nat)
    requires at <= |buf|
    ensures Overwrite(buf, at, []) == buf
  {}

  lemma OverwriteIs<T>(buf: seq<T>, at: nat, text: seq<T>, now: seq<T>)
    requires at + |text| <= |buf| == |now|
    requires forall i :: 0 <= i < |text| ==> now[at + i] == text[i]
    requires forall i :: 0 <= i < |buf| && !(at <= i < at + |text|) ==> now[i] == buf[i]
    ensures now == Overwrite(buf, at, text)
  {}

  lemma OverwriteFront<T>(buf: seq<T>, text: seq<T>, end: T)
    requires |text| < |buf|
    ensures Overwrite(buf, 0, text + [end])[..|text|] == text
  {}

  lemma OverwriteTwice<T>(buf: seq<T>, at: nat, a: seq<T>, b: seq<T>)
    requires at + |a| + |b| <= |buf|
    ensures Overwrite(Overwrite(buf, at, a), at + |a|, b) == Overwrite(buf, at, a + b)
  {}

  /** Nothing outside [base, base + size) has changed. */
  ghost predicate Confined<T>(was: seq<T>, now: seq<T>, base: nat, size: nat) {
    |was| == |now| && forall k :: 0 <= k < |was| && !(base <= k < base + size) ==> now[k] == was[k]
  }

  lemma OverwriteIsConfined<T>(buf: seq<T>, at: nat, text: seq<T>, base: nat, size: nat)
    requires base <= at && at + |text| <= base + size && at + |text| <= |buf|
    ensures Confined(buf, Overwrite(buf, at, text), base, size)
  {}

  lemma ConfinedTwice<T>(a: seq<T>, b: seq<T>, c: seq<T>, base: nat, size: nat)
    requires Confined(a, b, base, size) && Confined(b, c, base, size)
    ensures Confined(a, c, base, size)
  {}

  /** Storing over the last element of what was stored before. */
  lemma OverwriteLast<T>(buf: seq<T>, at: nat, a: seq<T>, x: T, b: seq<T>)
    requires at + |a| + |b| <= |buf| && |b| > 0
    ensures Overwrite(Overwrite(buf, at, a + [x]), at + |a|, b) == Overwrite(buf, at, a + b)
  {
    var now := Overwrite(Overwrite(buf, at, a + [x]), at + |a|, b);
    var goal := Overwrite(buf, at, a + b);
    forall i | 0 <= i < |buf| ensures now[i] == goal[i] {}
  }
}
