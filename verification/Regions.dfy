/**
 What km_init makes of the memory map the boot code leaves behind: which regions it uses,
 how it clips them, and which list of free blocks results.  Sizes and addresses here are
 in bytes; blocks are in pages.
 */
module Regions {
  import opened Wrappers
  import opened PageList

  const SZ_PAGE: nat := 4096
  const LOW_CUTOFF: nat := 0x10_0000
  const HIGH_CUTOFF: nat := 0x4000_0000
  const TWO_64: nat := 0x1_0000_0000_0000_0000
  const REGION_USABLE: nat := 1

  /** region_t, one entry of the INT 15H E820H map */
  datatype Region = Region(base: nat, length: nat, kind: nat, acpi: nat)

  /** Bit 0 of the ACPI word set ("do not ignore"), bit 1 clear ("not non-volatile"), type 1. */
  predicate Usable(r: Region) { r.acpi % 2 == 1 && r.acpi / 2 % 2 == 0 && r.kind == REGION_USABLE }

  /** The part of a region km_init hands to add_block, as 32-bit base and length, if any. */
  function Clip(r: Region): Option<(nat, nat)> {
    var end := (r.base + r.length) % TWO_64;
    var high := r.base >= HIGH_CUTOFF || end >= HIGH_CUTOFF;
    var top := if high then HIGH_CUTOFF else end;
    var low := r.base < LOW_CUTOFF || top < LOW_CUTOFF;
    var bottom := if low then LOW_CUTOFF else r.base;
    if !Usable(r) || (high && r.base > HIGH_CUTOFF) || (low && top < LOW_CUTOFF) then None
    else Some((bottom % TWO_32, (top - bottom) % TWO_32))
  }

  /** The block add_block makes of `length` bytes at `base`: nothing below one page. */
  function BlockAt(base: nat, length: nat): Option<Block> {
    if length < SZ_PAGE then None else Some(Block(base / SZ_PAGE, length / SZ_PAGE))
  }

  function BlockOf(r: Region): Option<Block> {
    match Clip(r)
    case None => None
    case Some((base, length)) => BlockAt(base, length)
  }

  /** A usable region of which something lies between the limits; km_init discards the others. */
  predicate Wanted(r: Region) { Usable(r) && r.base < HIGH_CUTOFF && LOW_CUTOFF < r.base + r.length }

  /** add_block rounds lengths only, so what it is given must start at a whole page; and the end of the
      region must be an address.  Nothing is asked of discarded regions. */
  predicate Sane(r: Region) {
    Wanted(r) ==> r.base + r.length < TWO_64 && (r.base % SZ_PAGE == 0 || r.base < LOW_CUTOFF)
  }

  predicate Clear(a: Region, b: Region) { a.base + a.length <= b.base || b.base + b.length <= a.base }

  /** A map as section 15.1 of ACPI 6.4 describes it: the regions wanted do not overlap. */
  predicate ValidTable(rs: seq<Region>) {
    && (forall i :: 0 <= i < |rs| ==> Sane(rs[i]))
    && (forall i, j :: 0 <= i < j < |rs| && Wanted(rs[i]) && Wanted(rs[j]) ==> Clear(rs[i], rs[j]))
  }

  /** The free list after the first regions have been added. */
  function InitList(rs: seq<Region>): seq<Block> {
    if rs == [] then [] else
    var l := InitList(rs[..|rs| - 1]);
    match BlockOf(rs[|rs| - 1])
    case None => l
    case Some(b) => InsertBlock(l, b)
  }

  /** Page p lies entirely within a usable region and within the limits. */
  predicate WholePage(r: Region, p: nat) {
    && Usable(r)
    && LOW_CUTOFF <= p * SZ_PAGE && (p + 1) * SZ_PAGE <= HIGH_CUTOFF
    && r.base <= p * SZ_PAGE && (p + 1) * SZ_PAGE <= r.base + r.length
  }

  /** The clipping arithmetic keeps exactly the whole pages between the limits. */
  lemma BlockPages(r: Region, p: nat)
    requires Sane(r)
    ensures WholePage(r, p) <==> BlockOf(r).Some? && BlockOf(r).value.base <= p < End(BlockOf(r).value)
    ensures BlockOf(r).Some? ==> Wanted(r) && BlockOf(r).value.base > 0 && BlockOf(r).value.pages > 0
  {
  }

  /** Where the block of a region lies, in bytes. */
  lemma BlockInside(r: Region)
    requires Sane(r) && BlockOf(r).Some?
    ensures var b := BlockOf(r).value; r.base <= b.base * SZ_PAGE && End(b) * SZ_PAGE <= r.base + r.length
  {
    var b := BlockOf(r).value;
    BlockPages(r, b.base);
    BlockPages(r, End(b) - 1);
  }

  /** Neither block starts before the other ends. */
  predicate BlocksClear(a: Block, b: Block) { End(a) <= b.base || End(b) <= a.base }

  lemma ClearBlocks(a: Region, b: Region)
    requires Sane(a) && Sane(b) && (Wanted(a) && Wanted(b) ==> Clear(a, b)) && BlockOf(a).Some? && BlockOf(b).Some?
    ensures BlocksClear(BlockOf(a).value, BlockOf(b).value)
  {
    BlockPages(a, 0);
    BlockPages(b, 0);
    BlockInside(a);
    BlockInside(b);
    ClearInPages(a, b, BlockOf(a).value, BlockOf(b).value);
  }

  lemma ClearInPages(a: Region, b: Region, x: Block, y: Block)
    requires Clear(a, b) && a.base <= x.base * SZ_PAGE && End(x) * SZ_PAGE <= a.base + a.length
    requires b.base <= y.base * SZ_PAGE && End(y) * SZ_PAGE <= b.base + b.length
    ensures BlocksClear(x, y)
  {
  }

  // ---- one insertion -----------------------------------------------------------------

  lemma BelowSplits(l: seq<Block>, b: Block)
    requires Sorted(l) && b.pages > 0
    requires forall i :: 0 <= i < |l| ==> BlocksClear(l[i], b)
    ensures var k := Below(l, b.base);
      (forall i :: 0 <= i < k ==> End(l[i]) <= b.base) && (forall i :: k <= i < |l| ==> End(b) <= l[i].base)
  {
    var k := Below(l, b.base);
    forall i | k <= i < |l| ensures End(b) <= l[i].base {
      assert BlocksClear(l[i], b);
      assert k < i ==> l[k].base <= End(l[k]) <= l[i].base;
    }
    forall i | 0 <= i < k ensures End(l[i]) <= b.base {
      assert BlocksClear(l[i], b);
    }
  }

  lemma InsertSorted(l: seq<Block>, b: Block)
    requires Sorted(l) && b.base > 0 && b.pages > 0
    requires forall i :: 0 <= i < |l| ==> BlocksClear(l[i], b)
    ensures Sorted(InsertBlock(l, b))
  {
    var k := Below(l, b.base);
    BelowSplits(l, b);
    SpliceSorted(l, k, k, b);
  }

  lemma InsertTotal(l: seq<Block>, b: Block)
    ensures Total(InsertBlock(l, b)) == Total(l) + b.pages
  {
    var k := Below(l, b.base);
    SpliceTotal(l, k, k, b);
    assert l[k..k] == [];
  }

  lemma InsertMember(l: seq<Block>, b: Block, x: Block)
    ensures x in InsertBlock(l, b) <==> x == b || x in l
  {
    var k := Below(l, b.base);
    assert l == l[..k] + l[k..];
  }

  // ---- the whole map ------------------------------------------------------------------

  /** x is the block of one of the regions. */
  ghost predicate FromTable(rs: seq<Region>, x: Block) {
    exists i :: 0 <= i < |rs| && BlockOf(rs[i]) == Some(x)
  }

  lemma {:induction false} InitMembers(rs: seq<Region>, x: Block)
    ensures x in InitList(rs) <==> FromTable(rs, x)
  {
    if rs != [] {
      var n := |rs| - 1;
      InitMembers(rs[..n], x);
      assert forall i :: 0 <= i < n ==> rs[..n][i] == rs[i];
      assert FromTable(rs, x) <==> FromTable(rs[..n], x) || BlockOf(rs[n]) == Some(x);
      match BlockOf(rs[n])
      case None =>
      case Some(b) => InsertMember(InitList(rs[..n]), b, x);
    }
  }

  lemma TablePrefix(rs: seq<Region>, n: nat)
    requires ValidTable(rs) && n <= |rs|
    ensures ValidTable(rs[..n])
  {
    var t := rs[..n];
    assert forall i :: 0 <= i < n ==> t[i] == rs[i];
  }

  /** The last region's block overlaps nothing that came before. */
  lemma LastClear(rs: seq<Region>, x: Block)
    requires ValidTable(rs) && rs != [] && BlockOf(rs[|rs| - 1]).Some? && FromTable(rs[..|rs| - 1], x)
    ensures BlocksClear(x, BlockOf(rs[|rs| - 1]).value)
  {
    var n := |rs| - 1;
    var t := rs[..n];
    var i :| 0 <= i < |t| && BlockOf(t[i]) == Some(x);
    PairClear(rs, i, n, t[i]);
  }

  lemma PairClear(rs: seq<Region>, i: nat, n: nat, r: Region)
    requires ValidTable(rs) && i < n < |rs| && r == rs[i] && BlockOf(r).Some? && BlockOf(rs[n]).Some?
    ensures BlocksClear(BlockOf(r).value, BlockOf(rs[n]).value)
  {
    ClearBlocks(r, rs[n]);
  }

  lemma LastFits(rs: seq<Region>, l: seq<Block>, b: Block)
    requires ValidTable(rs) && rs != [] && BlockOf(rs[|rs| - 1]) == Some(b)
    requires l == InitList(rs[..|rs| - 1])
    ensures b.base > 0 && b.pages > 0
    ensures forall i :: 0 <= i < |l| ==> BlocksClear(l[i], b)
  {
    var n := |rs| - 1;
    BlockPages(rs[n], 0);
    forall i | 0 <= i < |l| ensures BlocksClear(l[i], b) {
      InitMembers(rs[..n], l[i]);
      LastClear(rs, l[i]);
    }
  }

  /** km_init builds a sorted list of disjoint blocks. */
  lemma {:induction false} InitSorted(rs: seq<Region>)
    requires ValidTable(rs)
    ensures Sorted(InitList(rs))
  {
    if rs != [] {
      var n := |rs| - 1;
      TablePrefix(rs, n);
      InitSorted(rs[..n]);
      match BlockOf(rs[n])
      case None =>
      case Some(b) =>
        var l := InitList(rs[..n]);
        LastFits(rs, l, b);
        InsertSorted(l, b);
    }
  }

  /** What one turn of km_init's loop adds, and why it fits. */
  lemma InitNext(rs: seq<Region>, i: nat)
    requires ValidTable(rs) && i < |rs|
    ensures Sane(rs[i])
    ensures forall b :: BlockOf(rs[i]) == Some(b) ==>
      var l := InitList(rs[..i]); forall k :: 0 <= k < |l| ==> BlocksClear(l[k], b)
    ensures InitList(rs[..i + 1]) ==
      match BlockOf(rs[i]) case None => InitList(rs[..i]) case Some(b) => InsertBlock(InitList(rs[..i]), b)
  {
    var t := rs[..i + 1];
    TablePrefix(rs, i + 1);
    assert t[..i] == rs[..i] && t[i] == rs[i];
    if BlockOf(rs[i]).Some? { LastFits(t, InitList(rs[..i]), BlockOf(rs[i]).value); }
  }

  lemma {:induction false} CoversWhole(rs: seq<Region>, p: nat)
    requires ValidTable(rs)
    ensures p in PageSet(InitList(rs)) <==> exists i :: 0 <= i < |rs| && WholePage(rs[i], p)
  {
    var l := InitList(rs);
    if Covers(l, p) {
      var k :| 0 <= k < |l| && l[k].base <= p < End(l[k]);
      InitMembers(rs, l[k]);
      var i :| 0 <= i < |rs| && BlockOf(rs[i]) == Some(l[k]);
      BlockPages(rs[i], p);
      assert WholePage(rs[i], p);
    }
    if i :| 0 <= i < |rs| && WholePage(rs[i], p) {
      BlockPages(rs[i], p);
      var b := BlockOf(rs[i]).value;
      assert FromTable(rs, b);
      InitMembers(rs, b);
      var k :| 0 <= k < |l| && l[k] == b;
      assert Covers(l, p);
    }
  }

  /** The list covers exactly the whole pages between 1MB and 1GB of the regions that are of type 1 and
      have bit 0 of the ACPI word set and bit 1 clear. */
  lemma InitCovers(rs: seq<Region>, p: nat)
    requires ValidTable(rs)
    ensures p in PageSet(InitList(rs)) <==>
      exists i :: 0 <= i < |rs| && rs[i].kind == 1 && rs[i].acpi % 2 == 1 && rs[i].acpi / 2 % 2 == 0
        && 0x100 <= p < 0x4_0000 && rs[i].base <= p * 4096 && (p + 1) * 4096 <= rs[i].base + rs[i].length
  {
    CoversWhole(rs, p);
    PageLimits(p);
    forall i | 0 <= i < |rs|
      ensures WholePage(rs[i], p) <==>
                rs[i].kind == 1 && rs[i].acpi % 2 == 1 && rs[i].acpi / 2 % 2 == 0
                && 0x100 <= p < 0x4_0000 && rs[i].base <= p * 4096 && (p + 1) * 4096 <= rs[i].base + rs[i].length
    {}
  }

  lemma PageLimits(p: nat)
    ensures LOW_CUTOFF <= p * SZ_PAGE && (p + 1) * SZ_PAGE <= HIGH_CUTOFF <==> 0x100 <= p < 0x4_0000
  {
  }

  function Without(rs: seq<Region>, i: nat): seq<Region>
    requires i < |rs|
  {
    rs[..i] + rs[i + 1..]
  }

  lemma WithoutLast(rs: seq<Region>, i: nat)
    requires i + 1 < |rs|
    ensures Without(rs, i) == Without(rs[..|rs| - 1], i) + [rs[|rs| - 1]] && rs == rs[..|rs| - 1] + [rs[|rs| - 1]]
  {
  }

  /** Any other region changes nothing: the list is the one of the map without it. */
  lemma {:induction false} Discarded(rs: seq<Region>, i: nat)
    requires i < |rs| && (rs[i].kind != 1 || rs[i].acpi % 2 == 0 || rs[i].acpi / 2 % 2 == 1)
    ensures InitList(Without(rs, i)) == InitList(rs)
    decreases |rs|
  {
    var n := |rs| - 1;
    var t, r := rs[..n], rs[n];
    if i == n {
      assert Without(rs, i) == t;
      NoBlock(r);
    } else {
      WithoutLast(rs, i);
      Discarded(t, i);
      OneMore(Without(t, i), r);
      OneMore(t, r);
    }
  }

  lemma NoBlock(r: Region)
    requires r.kind != 1 || r.acpi % 2 == 0 || r.acpi / 2 % 2 == 1
    ensures BlockOf(r) == None
  {
  }

  lemma OneMore(rs: seq<Region>, r: Region)
    ensures InitList(rs + [r]) ==
      match BlockOf(r) case None => InitList(rs) case Some(b) => InsertBlock(InitList(rs), b)
  {
    assert (rs + [r])[..|rs|] == rs;
  }

  /** The map of an ordinary PC, with reserved entries that start in the middle of a page. */
  const USUAL: seq<Region> :=
    [Region(0, 0x9FC00, 1, 1), Region(0x9FC00, 0x400, 2, 1), Region(0xF0000, 0x1_0000, 2, 1),
     Region(0x10_0000, 0x7EE_0000, 1, 1), Region(0x7FE_0000, 0x2_0000, 2, 1)]

  lemma UsualMapValid()
    ensures ValidTable(USUAL)
  {
  }

  /** Its free pages: from 1MB to the last reserved region. */
  lemma UsualMapPages(p: nat)
    ensures p in PageSet(InitList(USUAL)) <==> 0x100 <= p < 0x7FE0
  {
    UsualMapValid();
    InitCovers(USUAL, p);
    assert USUAL[3] == Region(0x10_0000, 0x7EE_0000, 1, 1);
    if p in PageSet(InitList(USUAL)) {
      var i :| 0 <= i < |USUAL| && USUAL[i].kind == 1 && 0x100 <= p < 0x4_0000
        && USUAL[i].base <= p * 4096 && (p + 1) * 4096 <= USUAL[i].base + USUAL[i].length;
      assert i == 0 || i == 3;
    }
  }

  /** Region j's block starts where region i's block ends. */
  ghost predicate Touch(rs: seq<Region>, i: int, j: int)
    requires 0 <= i < |rs| && 0 <= j < |rs|
  {
    BlockOf(rs[i]).Some? && BlockOf(rs[j]).Some? && End(BlockOf(rs[i]).value) == BlockOf(rs[j]).value.base
  }

  /** add_block does not merge: the list starts out coalesced exactly when no two usable regions touch. */
  lemma {:induction false} InitCoalesced(rs: seq<Region>)
    requires ValidTable(rs)
    ensures Coalesced(InitList(rs)) <==> forall i, j :: 0 <= i < |rs| && 0 <= j < |rs| ==> !Touch(rs, i, j)
  {
    var l := InitList(rs);
    InitSorted(rs);
    if a, b :| 0 <= a < b < |l| && End(l[a]) == l[b].base {
      InitMembers(rs, l[a]);
      InitMembers(rs, l[b]);
      var i :| 0 <= i < |rs| && BlockOf(rs[i]) == Some(l[a]);
      var j :| 0 <= j < |rs| && BlockOf(rs[j]) == Some(l[b]);
      assert Touch(rs, i, j);
    }
    forall i, j | 0 <= i < |rs| && 0 <= j < |rs| && Touch(rs, i, j) ensures !Coalesced(l) {
      TouchInList(rs, i, j);
    }
  }

  lemma {:induction false} TouchInList(rs: seq<Region>, i: nat, j: nat)
    requires ValidTable(rs) && i < |rs| && j < |rs| && Touch(rs, i, j)
    ensures !Coalesced(InitList(rs))
  {
    var l := InitList(rs);
    InitSorted(rs);
    var x, y := BlockOf(rs[i]).value, BlockOf(rs[j]).value;
    InitMembers(rs, x);
    InitMembers(rs, y);
    assert FromTable(rs, x) && FromTable(rs, y);
    var a :| 0 <= a < |l| && l[a] == x;
    var b :| 0 <= b < |l| && l[b] == y;
    assert a < b;
  }

  /** Two touching usable regions of one page each: the list km_init builds holds a run of two free
      pages, and a request for two pages is refused. */
  lemma IncompleteWhenTouching()
    ensures var rs := [Region(LOW_CUTOFF, SZ_PAGE, 1, 1), Region(LOW_CUTOFF + SZ_PAGE, SZ_PAGE, 1, 1)];
      ValidTable(rs) && Touch(rs, 0, 1) && GrantBase(InitList(rs), 2) == 0 && HasRun(InitList(rs), 2)
  {
    var rs := [Region(LOW_CUTOFF, SZ_PAGE, 1, 1), Region(LOW_CUTOFF + SZ_PAGE, SZ_PAGE, 1, 1)];
    var x, y := Block(256, 1), Block(257, 1);
    assert BlockOf(rs[0]) == Some(x) && BlockOf(rs[1]) == Some(y);
    TwoInserted(rs, x, y);
    TwoTouching([x, y]);
  }

  lemma {:induction false} TwoInserted(rs: seq<Region>, x: Block, y: Block)
    requires |rs| == 2 && BlockOf(rs[0]) == Some(x) && BlockOf(rs[1]) == Some(y) && x.base < y.base
    ensures InitList(rs) == [x, y]
  {
    assert rs[..1][..0] == [];
    assert InitList(rs[..1]) == InsertBlock([], x) == [x];
    assert Below([x], y.base) == 1 + Below([x][1..], y.base) == 1;
  }

  lemma TwoTouching(l: seq<Block>)
    requires l == [Block(256, 1), Block(257, 1)]
    ensures GrantBase(l, 2) == 0 && HasRun(l, 2)
  {
    assert FirstFit(l, 2) == 1 + FirstFit(l[1..], 2) == 2;
    assert Covers(l, 256) by { assert l[0].base <= 256 < End(l[0]); }
    assert Covers(l, 257) by { assert l[1].base <= 257 < End(l[1]); }
    assert Span(256, 2) <= PageSet(l) by {
      forall p | p in Span(256, 2) ensures p in PageSet(l) { assert p == 256 || p == 257; }
    }
  }
}
