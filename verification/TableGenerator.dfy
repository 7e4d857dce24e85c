/**
  tools/gen_charset_tables.py: from the rows of a mapping file to the tables of
  one page. Whatever the rows, the tables it builds are sound.
 */
module TableGenerator {
  import opened Text
  import opened CodePages

  /** One row of a mapping file: the byte sequence, its unit if any, and the lead-byte mark. */
  datatype Row = Row(mb: nat, cu: Option<unit>, isLead: bool)

  /** The row maps a byte sequence to a unit. */
  predicate Maps(r: Row) {
    r.cu.Some? && (r.mb > 0xFF || !r.isLead)
  }

  /** The row makes b a lead byte. */
  predicate Leads(r: Row, b: byte) {
    if r.mb > 0xFF then r.mb / 0x100 == b else r.isLead && r.mb == b
  }

  /** Each byte sequence has one row, fits 16 bits, and is not mapped to U+FFFD. */
  predicate RowsOk(rows: seq<Row>) {
    && (forall i, j :: 0 <= i < j < |rows| ==> rows[i].mb != rows[j].mb)
    && (forall r <- rows :: r.mb <= 0xFFFF && r.cu != Some(REPLACEMENT))
  }

  /** No row maps to a surrogate. */
  predicate NoSurrogates(rows: seq<Row>) {
    forall r <- rows :: r.cu.Some? ==> !Utf16.IsHigh(r.cu.value) && !Utf16.IsLow(r.cu.value)
  }

  /** No byte both stands for a character and begins one. */
  predicate NoClash(rows: seq<Row>) {
    forall r, l :: r in rows && l in rows && Maps(r) && r.mb <= 0xFF ==> !Leads(l, r.mb)
  }

  /** The byte sequences the rows define and their units. */
  function ForwardOf(rows: seq<Row>): map<nat, unit> {
    if rows == [] then map[]
    else
      var (rest, r) := (ForwardOf(rows[..|rows| - 1]), rows[|rows| - 1]);
      if Maps(r) then rest[r.mb := r.cu.value] else rest
  }

  function LeadsOf(rows: seq<Row>): set<byte> {
    set r, b: byte | r in rows && Leads(r, b) :: b
  }

  lemma {:induction false} ForwardOfIsRows(rows: seq<Row>)
    requires RowsOk(rows)
    ensures forall r <- rows :: Maps(r) ==> r.mb in ForwardOf(rows) && ForwardOf(rows)[r.mb] == r.cu.value
    ensures forall mb <- ForwardOf(rows) :: exists r :: r in rows && Maps(r) && r.mb == mb
  {
    if rows != [] {
      var n := |rows| - 1;
      var front, last := rows[..n], rows[n];
      ForwardOfIsRows(front);
      forall r | r in rows && Maps(r) ensures r.mb in ForwardOf(rows) && ForwardOf(rows)[r.mb] == r.cu.value {
        var i :| 0 <= i < |rows| && rows[i] == r;
        if i < n { assert front[i] == r && r in front; }
      }
      forall mb | mb in ForwardOf(rows) ensures exists r :: r in rows && Maps(r) && r.mb == mb {
        if mb in ForwardOf(front) {
          var r :| r in front && Maps(r) && r.mb == mb;
          assert r in rows;
        } else {
          assert last in rows && Maps(last) && last.mb == mb;
        }
      }
    }
  }

  /** The unit of a one-byte sequence under fwd, and of a two-byte one. */
  function Single(fwd: map<nat, unit>, b: byte): unit {
    if b in fwd then fwd[b] else REPLACEMENT
  }

  function Double(fwd: map<nat, unit>, l: byte, t: byte): unit {
    var mb: nat := l as int * 0x100 + t as int;
    if mb > 0xFF && mb in fwd then fwd[mb] else REPLACEMENT
  }

  lemma DoubleAfter(fwd: map<nat, unit>, mb: nat, u: unit, l: byte, t: byte)
    requires 0x100 <= mb <= 0xFFFF
    ensures Double(fwd[mb := u], l, t) == if l == mb / 0x100 && t == mb % 0x100 then u else Double(fwd, l, t)
  {
    var pair := l as int * 0x100 + t as int;
    assert pair / 0x100 == l && pair % 0x100 == t;
  }

  lemma NoDouble(fwd: map<nat, unit>, mb: nat)
    requires 0x100 <= mb <= 0xFFFF && mb !in fwd
    ensures Double(fwd, mb / 0x100, mb % 0x100) == REPLACEMENT
  {}

  const EMPTY_ROW: seq<unit> := seq(0x100, _ => REPLACEMENT)

  class Page {
    var cp: int
    const isDbcs: bool
    var dec1: seq<unit>
    var lead: seq<bool>
    var dec2: map<byte, seq<unit>>
    var fwd: map<nat, unit>

    /** The tables and the forward map say the same. */
    ghost predicate Valid()
      reads this
    {
      && |dec1| == |lead| == 0x100
      && (forall b: byte :: dec1[b] == Single(fwd, b))
      && (forall b: byte :: lead[b] <==> b in dec2)
      && (forall l: byte :: l in dec2 ==> |dec2[l]| == 0x100)
      && (forall l: byte, t: byte :: l in dec2 ==> dec2[l][t] == Double(fwd, l, t))
      && (forall mb <- fwd :: mb <= 0xFFFF && fwd[mb] != REPLACEMENT && (mb > 0xFF ==> mb / 0x100 in dec2))
    }

    constructor (cp: int, isDbcs: bool)
      ensures Valid() && fwd == map[] && dec2 == map[] && this.cp == cp && this.isDbcs == isDbcs
    {
      this.cp, this.isDbcs := cp, isDbcs;
      dec1 := EMPTY_ROW;
      lead := seq(0x100, _ => false);
      dec2 := map[];
      fwd := map[];
    }

    method SetSingle(b: byte, cu: Option<unit>)
      requires Valid() && b !in fwd && cu != Some(REPLACEMENT)
      modifies this
      ensures Valid() && fwd == (if cu.Some? then old(fwd)[b as nat := cu.value] else old(fwd))
      ensures dec2 == old(dec2) && lead == old(lead) && cp == old(cp)
    {
      dec1 := dec1[b := if cu.Some? then cu.value else REPLACEMENT];
      if cu.Some? {
        fwd := fwd[b as nat := cu.value];
      }
    }

    method SetLead(b: byte)
      requires Valid()
      modifies this
      ensures Valid() && fwd == old(fwd) && dec2.Keys == old(dec2).Keys + {b} && cp == old(cp)
    {
      lead := lead[b := true];
      if b !in dec2 {
        dec2 := dec2[b := EMPTY_ROW];
      }
    }

    method SetDouble(mb: nat, cu: Option<unit>)
      requires Valid() && 0x100 <= mb <= 0xFFFF && mb !in fwd && cu != Some(REPLACEMENT)
      modifies this
      ensures Valid() && fwd == (if cu.Some? then old(fwd)[mb := cu.value] else old(fwd))
      ensures dec2.Keys == old(dec2).Keys + {mb / 0x100} && cp == old(cp)
    {
      var l: byte, trail: byte := mb / 0x100, mb % 0x100;
      SetLead(l);
      hide Double;
      var u: unit := if cu.Some? then cu.value else REPLACEMENT;
      forall l: byte, t: byte
        ensures Double(fwd[mb := u], l, t) == if l == mb / 0x100 && t == mb % 0x100 then u else Double(fwd, l, t)
      {
        DoubleAfter(fwd, mb, u, l, t);
      }
      NoDouble(fwd, mb);
      var row: seq<unit> := dec2[l];
      row := row[trail := u];
      dec2 := dec2[l := row];
      if cu.Some? {
        fwd := fwd[mb := cu.value];
      }
    }
  }

  /** The row loop; `ok` is false when a double byte below 0x8100 trips the generator's assertion. */
  method BuildPage(cp: int, rows: seq<Row>, isDbcs: bool) returns (p: Page, ok: bool)
    requires RowsOk(rows)
    ensures fresh(p) && p.Valid() && p.cp == cp && p.isDbcs == isDbcs
    ensures ok <==> forall r <- rows :: r.mb <= 0xFF || r.mb >= 0x8100
    ensures ok ==> p.fwd == ForwardOf(rows) && p.dec2.Keys == LeadsOf(rows)
  {
    hide LeadsOf, RowsOk, Page.Valid;
    p := new Page(cp, isDbcs);
    assert LeadsOf([]) == {} by { NoLeads(); }
    var i := 0;
    while i < |rows|
      invariant i <= |rows| && fresh(p) && p.Valid() && p.cp == cp && p.isDbcs == isDbcs
      invariant forall r <- rows[..i] :: r.mb <= 0xFF || r.mb >= 0x8100
      invariant p.fwd == ForwardOf(rows[..i])
      invariant p.dec2.Keys == LeadsOf(rows[..i])
    {
      var r := rows[i];
      assert r in rows;
      RowIsNew(rows, i);
      LeadsGrow(rows, i);
      assert rows[..i + 1][..i] == rows[..i];
      if r.mb <= 0xFF {
        if r.isLead {
          p.SetLead(r.mb);
        } else {
          p.SetSingle(r.mb, r.cu);
        }
      } else {
        if r.mb < 0x8100 {
          return p, false;
        }
        p.SetDouble(r.mb, r.cu);
      }
      assert rows[..i + 1] == rows[..i] + [r];
      i := i + 1;
    }
    assert rows[..i] == rows;
    ok := true;
  }

  lemma RowIsNew(rows: seq<Row>, i: nat)
    requires RowsOk(rows) && i < |rows|
    ensures rows[i].mb !in ForwardOf(rows[..i]) && rows[i].mb <= 0xFFFF && rows[i].cu != Some(REPLACEMENT)
  {
    assert rows[i] in rows;
    var front := rows[..i];
    assert RowsOk(front) by {
      forall r | r in front ensures r.mb <= 0xFFFF && r.cu != Some(REPLACEMENT) { assert r in rows; }
    }
    ForwardOfIsRows(front);
  }

  lemma NoLeads()
    ensures LeadsOf([]) == {}
  {}

  lemma LeadsGrow(rows: seq<Row>, i: nat)
    requires i < |rows| && rows[i].mb <= 0xFFFF
    ensures var r := rows[i];
            LeadsOf(rows[..i + 1]) == LeadsOf(rows[..i]) +
              (if r.mb > 0xFF then {r.mb / 0x100} else if r.isLead then {r.mb} else {})
  {
    var front, r := rows[..i], rows[i];
    assert rows[..i + 1] == front + [r];
    forall b: byte ensures b in LeadsOf(rows[..i + 1]) <==> b in LeadsOf(front) || Leads(r, b) {
      if b in LeadsOf(front) {
        var l :| l in front && Leads(l, b);
        assert l in rows[..i + 1];
      }
      if Leads(r, b) { assert r in rows[..i + 1]; }
    }
  }

  /** A page with one byte overridden, as cp858 is made from cp850. */
  method BuildDerived(cp: int, rows: seq<Row>, b: byte, newCu: unit) returns (p: Page, ok: bool)
    requires RowsOk(rows) && newCu != REPLACEMENT && forall r <- rows :: r.mb <= 0xFF && !r.isLead
    ensures fresh(p) && p.Valid() && p.cp == cp && !p.isDbcs && ok
    ensures p.fwd == ForwardOf(rows)[b as nat := newCu] && p.dec2 == map[]
  {
    p, ok := BuildPage(cp, rows, false);
    assert LeadsOf(rows) == {};
    assert p.dec2 == map[];
    p.cp := cp;
    p.dec1 := p.dec1[b := newCu];
    var all: map<nat, unit> := map k: nat | k < 0x100 && p.dec1[k] != REPLACEMENT :: p.dec1[k];
    ForwardOfIsRows(rows);
    RebuiltForward(ForwardOf(rows), p.dec1, all, b, newCu);
    p.fwd := all[b as nat := newCu];
  }

  lemma RebuiltForward(fwd: map<nat, unit>, dec1: seq<unit>, all: map<nat, unit>, b: byte, newCu: unit)
    requires |dec1| == 0x100 && dec1[b] == newCu && forall k: byte :: k != b ==> dec1[k] == Single(fwd, k)
    requires forall k <- fwd :: k <= 0xFF && fwd[k] != REPLACEMENT
    requires forall k: nat :: k in all <==> k < 0x100 && dec1[k] != REPLACEMENT
    requires forall k <- all :: all[k] == dec1[k]
    ensures all[b as nat := newCu] == fwd[b as nat := newCu]
  {
    forall k: nat
      ensures k in all[b as nat := newCu] <==> k in fwd[b as nat := newCu]
      ensures k in all && k != b ==> all[k] == fwd[k]
    {
      if k < 0x100 && k != b { assert dec1[k] == Single(fwd, k); }
    }
  }

  // ------------------------------------------------------------------
  // The reverse map
  // ------------------------------------------------------------------

  /** e is the canonical entry for its unit. */
  ghost predicate IsCanonical(fwd: map<nat, unit>, e: RevEntry) {
    e.mb in fwd && fwd[e.mb] == e.cu && forall mb <- fwd :: fwd[mb] == e.cu ==> e.mb <= mb
  }

  method LowestOf(mbs: seq<nat>) returns (m: nat)
    requires mbs != []
    ensures m in mbs && forall x <- mbs :: m <= x
  {
    m := mbs[0];
    for i := 1 to |mbs|
      invariant m in mbs && forall j :: 0 <= j < i ==> m <= mbs[j]
    {
      if mbs[i] < m { m := mbs[i]; }
    }
  }

  method GroupByUnit(fwd: map<nat, unit>) returns (byCu: map<unit, seq<nat>>)
    ensures forall cu <- byCu :: byCu[cu] != []
    ensures forall cu <- byCu :: forall mb: nat :: mb in byCu[cu] <==> mb in fwd && fwd[mb] == cu
    ensures forall mb <- fwd :: fwd[mb] in byCu
  {
    byCu := map[];
    var todo := fwd.Keys;
    while todo != {}
      invariant todo <= fwd.Keys
      invariant forall cu <- byCu :: byCu[cu] != []
      invariant forall cu <- byCu :: forall mb: nat :: mb in byCu[cu] <==> mb in fwd.Keys - todo && fwd[mb] == cu
      invariant forall mb <- fwd.Keys - todo :: fwd[mb] in byCu
      decreases todo
    {
      var mb :| mb in todo;
      var cu := fwd[mb];
      byCu := byCu[cu := (if cu in byCu then byCu[cu] else []) + [mb]];
      todo := todo - {mb};
    }
  }

  /** For each unit the lowest byte sequence that decodes to it, in the order of the units. */
  method BuildReverse(fwd: map<nat, unit>) returns (rev: seq<RevEntry>)
    ensures Sorted(rev)
    ensures forall e <- rev :: IsCanonical(fwd, e)
    ensures forall mb <- fwd :: exists e :: e in rev && e.cu == fwd[mb]
  {
    var byCu := GroupByUnit(fwd);
    rev := [];
    for cu := 0 to 0x10000
      invariant Sorted(rev) && forall e <- rev :: e.cu < cu && IsCanonical(fwd, e)
      invariant forall u <- byCu :: u < cu ==> exists e :: e in rev && e.cu == u
    {
      if cu in byCu {
        var m := LowestOf(byCu[cu]);
        ghost var was := rev;
        rev := rev + [RevEntry(cu, m)];
        assert forall e :: e in was ==> e in rev;
        assert RevEntry(cu, m) in rev;
      }
    }
  }

  // ------------------------------------------------------------------
  // The lead rows
  // ------------------------------------------------------------------

  method Flatten(dec2: map<byte, seq<unit>>) returns (leadrow: seq<int>, flat: seq<unit>)
    requires forall l <- dec2 :: |dec2[l]| == 0x100
    ensures |leadrow| == 0x100
    ensures forall l <- dec2 :: 0 <= leadrow[l] && leadrow[l] * 0x100 + 0x100 <= |flat|
                                && flat[leadrow[l] * 0x100..leadrow[l] * 0x100 + 0x100] == dec2[l]
  {
    leadrow, flat := seq(0x100, _ => -1), [];
    var rows := 0;
    for l := 0 to 0x100
      invariant |leadrow| == 0x100 && |flat| == rows * 0x100
      invariant forall k <- dec2 :: k < l ==> 0 <= leadrow[k] < rows
      invariant forall k <- dec2 :: k < l ==> flat[leadrow[k] * 0x100..leadrow[k] * 0x100 + 0x100] == dec2[k]
    {
      if l in dec2 {
        leadrow := leadrow[l := rows];
        ghost var was := flat;
        flat := flat + dec2[l];
        rows := rows + 1;
        forall k | k in dec2 && k < l
          ensures flat[leadrow[k] * 0x100..leadrow[k] * 0x100 + 0x100] == dec2[k]
        {
          assert leadrow[k] * 0x100 + 0x100 <= |was|;
          assert flat[leadrow[k] * 0x100..leadrow[k] * 0x100 + 0x100] == was[leadrow[k] * 0x100..leadrow[k] * 0x100 + 0x100];
        }
      }
    }
  }

  /** The tables of t define the byte sequences of fwd, with those units. */
  ghost predicate Means(t: CpPage, fwd: map<nat, unit>)
    requires Shaped(t)
  {
    && (forall mb: nat :: Defined(t, mb) <==> mb in fwd)
    && (forall mb: nat :: Defined(t, mb) && mb in fwd ==> Forward(t, mb) == fwd[mb])
  }

  // ------------------------------------------------------------------
  // From rows to sound tables
  // ------------------------------------------------------------------

  /** What emit writes for one page. */
  method Emit(p: Page) returns (t: CpPage)
    requires p.Valid() && (p.isDbcs || p.dec2 == map[])
    requires forall l <- p.dec2 :: (l as nat) !in p.fwd
    ensures t.cp == p.cp && t.isDbcs == p.isDbcs && Sound(t) && Means(t, p.fwd)
  {
    var rev := BuildReverse(p.fwd);
    if p.isDbcs {
      var leadrow, flat := Flatten(p.dec2);
      t := CpPage(p.cp, true, p.dec1, p.lead, leadrow, flat, rev);
      TrailsAreDoubles(t, p.dec2);
    } else {
      t := CpPage(p.cp, false, p.dec1, [], [], [], rev);
    }
    TablesMeanForward(t, p.fwd, p.dec2);
    ReverseIsSound(t, p.fwd);
  }

  /** The flat rows give back the rows by lead byte. */
  lemma TrailsAreDoubles(t: CpPage, dec2: map<byte, seq<unit>>)
    requires Shaped(t) && forall l: byte :: IsLead(t, l) <==> l in dec2
    requires t.isDbcs && forall l <- dec2 :: |dec2[l]| == 0x100
    requires forall l <- dec2 :: t.lead[l] && t.dec2[t.leadrow[l] * 0x100..t.leadrow[l] * 0x100 + 0x100] == dec2[l]
    ensures forall l: byte, u: byte :: l in dec2 ==> Trail(t, l, u) == dec2[l][u]
  {
    forall l: byte, u: byte | l in dec2 ensures Trail(t, l, u) == dec2[l][u] {
      assert t.dec2[t.leadrow[l] * 0x100..t.leadrow[l] * 0x100 + 0x100][u] == dec2[l][u];
    }
  }

  lemma TablesMeanForward(t: CpPage, fwd: map<nat, unit>, dec2: map<byte, seq<unit>>)
    requires Shaped(t) && forall l: byte :: IsLead(t, l) <==> l in dec2
    requires forall l <- dec2 :: |dec2[l]| == 0x100 && (l as nat) !in fwd
    requires forall l: byte, u: byte :: l in dec2 ==> Trail(t, l, u) == dec2[l][u] == Double(fwd, l, u)
    requires forall b: byte :: t.dec1[b] == Single(fwd, b)
    requires forall mb <- fwd :: mb <= 0xFFFF && fwd[mb] != REPLACEMENT && (mb > 0xFF ==> mb / 0x100 in dec2)
    ensures Means(t, fwd)
    ensures IsLead(t, 0) ==> forall u: byte :: Trail(t, 0, u) == REPLACEMENT
  {
    forall mb: nat
      ensures Defined(t, mb) <==> mb in fwd
      ensures Defined(t, mb) && mb in fwd ==> Forward(t, mb) == fwd[mb]
    {
      if 0xFF < mb <= 0xFFFF && mb / 0x100 in dec2 {
        assert Trail(t, mb / 0x100, mb % 0x100) == Double(fwd, mb / 0x100, mb % 0x100);
      }
    }
  }

  lemma ReverseIsSound(t: CpPage, fwd: map<nat, unit>)
    requires Shaped(t) && Sorted(t.rev)
    requires forall e <- t.rev :: IsCanonical(fwd, e)
    requires forall mb <- fwd :: exists e :: e in t.rev && e.cu == fwd[mb]
    requires Means(t, fwd)
    requires IsLead(t, 0) ==> forall u: byte :: Trail(t, 0, u) == REPLACEMENT
    ensures Sound(t)
  {
    forall mb: nat | Defined(t, mb) ensures exists e :: e in t.rev && e.cu == Forward(t, mb) && e.mb <= mb {
      var e :| e in t.rev && e.cu == fwd[mb];
      assert IsCanonical(fwd, e);
    }
  }

  /** The whole generator for one page: tables that are sound and mean the rows. */
  method Generate(cp: int, rows: seq<Row>, isDbcs: bool) returns (t: CpPage, ok: bool)
    requires RowsOk(rows) && NoClash(rows) && (isDbcs || forall r <- rows :: r.mb <= 0xFF && !r.isLead)
    ensures ok <==> forall r <- rows :: r.mb <= 0xFF || r.mb >= 0x8100
    ensures ok ==> t.cp == cp && t.isDbcs == isDbcs && Sound(t)
    ensures ok ==> forall r <- rows :: Maps(r) ==> Defined(t, r.mb) && Forward(t, r.mb) == r.cu.value
    ensures ok ==> forall mb: nat :: Defined(t, mb) ==> exists r :: r in rows && Maps(r) && r.mb == mb
    ensures ok && NoSurrogates(rows) ==> Plain(t)
  {
    var p: Page;
    p, ok := BuildPage(cp, rows, isDbcs);
    if !ok {
      return CpPage(cp, false, [], [], [], [], []), false;
    }
    ForwardOfIsRows(rows);
    NoClashInTables(rows);
    t := Emit(p);
  }

  lemma NoClashInTables(rows: seq<Row>)
    requires RowsOk(rows) && NoClash(rows)
    ensures forall l <- LeadsOf(rows) :: (l as nat) !in ForwardOf(rows)
    ensures (forall r <- rows :: r.mb <= 0xFF && !r.isLead) ==> LeadsOf(rows) == {}
  {
    ForwardOfIsRows(rows);
  }
}
