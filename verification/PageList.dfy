/**
 The free page list of kernel/kmem.c as a value: a sequence of blocks in address
 order.  Addresses are page numbers (byte address / 4096) and page 0 is NULL.
 The functions say what the list becomes; the lemmas say what that means for the
 set of free pages.  KMem.dfy proves the pointer code against these functions.
 */
module PageList {

  datatype Block = Block(base: nat, pages: nat)

  function End(b: Block): nat { b.base + b.pages }

  /** Blocks are non-empty, never at NULL, in address order and do not overlap. */
  ghost predicate Sorted(l: seq<Block>) {
    && (forall i :: 0 <= i < |l| ==> l[i].pages > 0 && l[i].base > 0)
    && (forall i, j :: 0 <= i < j < |l| ==> End(l[i]) <= l[j].base)
  }

  /** Moreover no two blocks touch: every run of free pages is one block. */
  ghost predicate Coalesced(l: seq<Block>) {
    && Sorted(l)
    && (forall i, j :: 0 <= i < j < |l| ==> End(l[i]) < l[j].base)
  }

  ghost predicate Covers(l: seq<Block>, p: nat) {
    exists i :: 0 <= i < |l| && l[i].base <= p < End(l[i])
  }

  ghost function Span(base: nat, count: nat): (r: set<nat>)
    ensures forall p :: p in r <==> base <= p < base + count
  {
    if count == 0 then {} else Span(base, count - 1) + {base + count - 1}
  }

  ghost function PageSet(l: seq<Block>): (r: set<nat>)
    ensures forall p :: p in r <==> Covers(l, p)
  {
    if l == [] then {} else
      var r := Span(l[0].base, l[0].pages) + PageSet(l[1..]);
      assert forall p: nat :: Covers(l, p) <==> l[0].base <= p < End(l[0]) || Covers(l[1..], p) by {
        forall p: nat ensures Covers(l, p) <==> l[0].base <= p < End(l[0]) || Covers(l[1..], p) { CoversCons(l, p); }
      }
      r
  }

  lemma CoversCons(l: seq<Block>, p: nat)
    requires l != []
    ensures Covers(l, p) <==> l[0].base <= p < End(l[0]) || Covers(l[1..], p)
  {
    if Covers(l, p) {
      var i :| 0 <= i < |l| && l[i].base <= p < End(l[i]);
      if i > 0 { assert l[1..][i - 1] == l[i]; }
    }
    if Covers(l[1..], p) {
      var i :| 0 <= i < |l[1..]| && l[1..][i].base <= p < End(l[1..][i]);
      assert l[i + 1] == l[1..][i];
    }
  }

  lemma CoversConcat(a: seq<Block>, b: seq<Block>, p: nat)
    ensures Covers(a + b, p) <==> Covers(a, p) || Covers(b, p)
  {
    if Covers(a, p) {
      var i :| 0 <= i < |a| && a[i].base <= p < End(a[i]);
      assert (a + b)[i] == a[i];
    }
    if Covers(b, p) {
      var i :| 0 <= i < |b| && b[i].base <= p < End(b[i]);
      assert (a + b)[|a| + i] == b[i];
    }
  }

  function Total(l: seq<Block>): nat {
    if l == [] then 0 else l[0].pages + Total(l[1..])
  }

  /** Is there a run of `count` consecutive free pages anywhere? */
  ghost predicate HasRun(l: seq<Block>, count: nat) {
    exists start: nat :: Span(start, count) <= PageSet(l)
  }

  // ---- allocation -------------------------------------------------------

  /** Position of the first block of at least `count` pages, or |l|. */
  function FirstFit(l: seq<Block>, count: nat): (k: nat)
    ensures k <= |l|
    ensures forall i :: 0 <= i < k ==> l[i].pages < count
    ensures k < |l| ==> l[k].pages >= count
  {
    if l == [] || l[0].pages >= count then 0 else 1 + FirstFit(l[1..], count)
  }

  /** Base of the pages granted, or 0 (NULL). */
  function GrantBase(l: seq<Block>, count: nat): nat {
    var k := FirstFit(l, count);
    if count == 0 || k == |l| then 0 else l[k].base
  }

  function AllocList(l: seq<Block>, count: nat): seq<Block> {
    var k := FirstFit(l, count);
    if count == 0 || k == |l| then l
    else if l[k].pages == count then l[..k] + l[k + 1..]
    else l[k := Block(l[k].base + count, l[k].pages - count)]
  }

  // ---- release ----------------------------------------------------------

  /** Number of leading blocks that lie below `base`. */
  function Below(l: seq<Block>, base: nat): (k: nat)
    ensures k <= |l|
    ensures forall i :: 0 <= i < k ==> l[i].base < base
    ensures k < |l| ==> l[k].base >= base
  {
    if l == [] || l[0].base >= base then 0 else 1 + Below(l[1..], base)
  }

  /** l with l[a..b] replaced by one block. */
  function Splice(l: seq<Block>, a: nat, b: nat, m: Block): seq<Block>
    requires a <= b <= |l|
  {
    l[..a] + [m] + l[b..]
  }

  /** Position of the block that will hold the returned pages: a predecessor they touch, or a new one. */
  function MergeLow(l: seq<Block>, base: nat): (a: nat)
    ensures a <= Below(l, base)
  {
    var k := Below(l, base);
    if k > 0 && End(l[k - 1]) == base then k - 1 else k
  }

  /** The block that now holds the returned pages: the grown predecessor, or the block itself. */
  function Used(l: seq<Block>, base: nat, count: nat): Block {
    var k := Below(l, base);
    if k > 0 && End(l[k - 1]) == base then Block(l[k - 1].base, l[k - 1].pages + count) else Block(base, count)
  }

  /** The list after the first half of km_page_free_multi: inserted, or merged into its predecessor. */
  function ListWith(l: seq<Block>, base: nat, count: nat): seq<Block> {
    Splice(l, MergeLow(l, base), Below(l, base), Used(l, base, count))
  }

  /** The second half: block a takes in its successor if they touch. */
  function MergeAt(l: seq<Block>, a: nat): seq<Block>
    requires a < |l|
  {
    if a + 1 < |l| && End(l[a]) == l[a + 1].base then Splice(l, a, a + 2, Block(l[a].base, l[a].pages + l[a + 1].pages))
    else l
  }

  function FreeList(l: seq<Block>, base: nat, count: nat): seq<Block> {
    MergeAt(ListWith(l, base, count), MergeLow(l, base))
  }

  /** Insertion without merging (add_block). */
  function InsertBlock(l: seq<Block>, b: Block): seq<Block> {
    var k := Below(l, b.base);
    l[..k] + [b] + l[k..]
  }

  lemma Split3(a: seq<Block>, b: seq<Block>, c: seq<Block>, p: nat)
    ensures Covers(a + b + c, p) <==> Covers(a, p) || Covers(b, p) || Covers(c, p)
  {
    CoversConcat(a + b, c, p);
    CoversConcat(a, b, p);
  }

  lemma {:induction false} TotalConcat(a: seq<Block>, b: seq<Block>)
    ensures Total(a + b) == Total(a) + Total(b)
  {
    if a == [] {
      assert a + b == b;
    } else {
      assert (a + b)[1..] == a[1..] + b;
      TotalConcat(a[1..], b);
    }
  }

  lemma TotalSplit(a: seq<Block>, b: seq<Block>, c: seq<Block>)
    ensures Total(a + b + c) == Total(a) + Total(b) + Total(c)
  {
    TotalConcat(a + b, c);
    TotalConcat(a, b);
  }

  // ---- what allocation does to the set of free pages -----------------------

  lemma AllocSorted(l: seq<Block>, count: nat)
    requires Sorted(l)
    ensures Sorted(AllocList(l, count))
    ensures Coalesced(l) ==> Coalesced(AllocList(l, count))
  {
    AllocAtSorted(l, count, FirstFit(l, count), AllocList(l, count));
  }

  lemma AllocAtSorted(l: seq<Block>, count: nat, k: nat, r: seq<Block>)
    requires Sorted(l) && k <= |l| && (count > 0 && k < |l| ==> l[k].pages >= count)
    requires r == if count == 0 || k == |l| then l
                  else if l[k].pages == count then l[..k] + l[k + 1..]
                  else l[k := Block(l[k].base + count, l[k].pages - count)]
    ensures Sorted(r) && (Coalesced(l) ==> Coalesced(r))
  {
    if count > 0 && k < |l| {
      if l[k].pages == count { SortedWithout(l, k); }
      else { SortedCarved(l, k, Block(l[k].base + count, l[k].pages - count)); }
    }
  }

  lemma SortedCarved(l: seq<Block>, k: nat, b: Block)
    requires Sorted(l) && k < |l| && b.pages > 0 && l[k].base <= b.base && End(b) == End(l[k])
    ensures Sorted(l[k := b]) && (Coalesced(l) ==> Coalesced(l[k := b]))
  {
  }

  lemma SortedWithout(l: seq<Block>, k: nat)
    requires Sorted(l) && k < |l|
    ensures var r := l[..k] + l[k + 1..]; Sorted(r) && (Coalesced(l) ==> Coalesced(r))
  {
    var r := l[..k] + l[k + 1..];
    assert forall i :: 0 <= i < |r| ==> r[i] == l[if i < k then i else i + 1];
  }

  /** In a sorted list, a page of block k lies in no other block. */
  lemma OnlyBlock(l: seq<Block>, k: nat, p: nat)
    requires Sorted(l) && k < |l| && l[k].base <= p < End(l[k])
    ensures !Covers(l[..k], p) && !Covers(l[k + 1..], p)
  {
    forall i | 0 <= i < k ensures !(l[..k][i].base <= p < End(l[..k][i])) {
      assert l[..k][i] == l[i];
    }
    var high := l[k + 1..];
    forall i | 0 <= i < |high| ensures !(high[i].base <= p < End(high[i])) {
      assert high[i] == l[k + 1 + i];
    }
  }

  lemma CoversOne(b: Block, p: nat)
    ensures Covers([b], p) <==> b.base <= p < End(b)
  {
    CoversCons([b], p);
  }

  /** Replacing block k by `rest`, which keeps some of its pages. */
  lemma ReplaceCovers(l: seq<Block>, k: nat, rest: seq<Block>, p: nat)
    requires Sorted(l) && k < |l|
    requires Covers(rest, p) ==> l[k].base <= p < End(l[k])
    ensures Covers(l[..k] + rest + l[k + 1..], p) <==>
              if l[k].base <= p < End(l[k]) then Covers(rest, p) else Covers(l, p)
    ensures l[k].base <= p < End(l[k]) ==> Covers(l, p)
  {
    assert l == l[..k] + [l[k]] + l[k + 1..];
    Split3(l[..k], [l[k]], l[k + 1..], p);
    Split3(l[..k], rest, l[k + 1..], p);
    CoversOne(l[k], p);
    if l[k].base <= p < End(l[k]) { OnlyBlock(l, k, p); }
  }

  /** What is left of the block that is carved up: nothing, or its tail. */
  function Remainder(b: Block, count: nat): seq<Block>
    requires count <= b.pages
  {
    if b.pages == count then [] else [Block(b.base + count, b.pages - count)]
  }

  lemma {:induction false} AllocSplice(l: seq<Block>, count: nat)
    requires count > 0 && FirstFit(l, count) < |l|
    ensures var k := FirstFit(l, count); AllocList(l, count) == l[..k] + Remainder(l[k], count) + l[k + 1..]
  {
    var k := FirstFit(l, count);
    if l[k].pages == count {
      assert l[..k] + [] == l[..k];
    } else {
      UpdateIs(l, k, Block(l[k].base + count, l[k].pages - count));
    }
  }

  lemma UpdateIs(l: seq<Block>, k: nat, b: Block)
    requires k < |l|
    ensures l[k := b] == l[..k] + [b] + l[k + 1..]
  {
  }

  lemma AllocCovers(l: seq<Block>, count: nat, p: nat)
    requires Sorted(l) && count > 0 && FirstFit(l, count) < |l|
    ensures var b := l[FirstFit(l, count)].base;
      && (Covers(AllocList(l, count), p) <==> Covers(l, p) && !(b <= p < b + count))
      && (b <= p < b + count ==> Covers(l, p))
  {
    var k := FirstFit(l, count);
    var rest := Remainder(l[k], count);
    AllocSplice(l, count);
    if rest != [] { CoversOne(rest[0], p); }
    ReplaceCovers(l, k, rest, p);
  }

  lemma AllocTotal(l: seq<Block>, count: nat)
    requires count > 0 && FirstFit(l, count) < |l|
    ensures Total(AllocList(l, count)) == Total(l) - count
  {
    var k := FirstFit(l, count);
    AllocSplice(l, count);
    assert l == l[..k] + [l[k]] + l[k + 1..];
    TotalSplit(l[..k], [l[k]], l[k + 1..]);
    TotalSplit(l[..k], Remainder(l[k], count), l[k + 1..]);
  }

  /** A grant takes exactly its own pages out of the free set. */
  lemma AllocPages(l: seq<Block>, count: nat)
    requires Sorted(l) && GrantBase(l, count) != 0
    ensures Span(GrantBase(l, count), count) <= PageSet(l)
    ensures PageSet(AllocList(l, count)) == PageSet(l) - Span(GrantBase(l, count), count)
    ensures Total(AllocList(l, count)) == Total(l) - count
  {
    forall p: nat
      ensures p in PageSet(AllocList(l, count)) <==> p in PageSet(l) && p !in Span(GrantBase(l, count), count)
      ensures p in Span(GrantBase(l, count), count) ==> p in PageSet(l)
    {
      AllocCovers(l, count, p);
    }
    AllocTotal(l, count);
  }

  /** One page: the list without it. */
  lemma GrantOne(l: seq<Block>, b: nat)
    requires Sorted(l) && b == GrantBase(l, 1) && b != 0
    ensures b in PageSet(l) && Sorted(AllocList(l, 1)) && PageSet(AllocList(l, 1)) == PageSet(l) - {b}
  {
    AllocSorted(l, 1);
    AllocPages(l, 1);
    SpanOne(b);
  }

  lemma SpanOne(b: nat)
    ensures Span(b, 1) == {b}
  {
  }

  // ---- allocation is complete ------------------------------------------------

  /** In a coalesced list a run of free pages never crosses from one block to the next. */
  lemma {:induction false} RunInOneBlock(l: seq<Block>, start: nat, count: nat) returns (i: nat)
    requires Coalesced(l) && count > 0
    requires forall p: nat :: start <= p < start + count ==> Covers(l, p)
    ensures i < |l| && l[i].base <= start && start + count <= End(l[i])
  {
    if count == 1 {
      assert Covers(l, start);
      i :| 0 <= i < |l| && l[i].base <= start < End(l[i]);
    } else {
      i := RunInOneBlock(l, start, count - 1);
      var p := start + count - 1;
      assert Covers(l, p);
      var j :| 0 <= j < |l| && l[j].base <= p < End(l[j]);
      assert i == j;
    }
  }

  /** km_page_alloc answers NULL only when no run of free pages is long enough. */
  lemma AllocComplete(l: seq<Block>, count: nat)
    requires Coalesced(l) && count > 0
    ensures GrantBase(l, count) == 0 <==> !HasRun(l, count)
  {
    if GrantBase(l, count) != 0 {
      AllocPages(l, count);
    }
    forall start: nat | Span(start, count) <= PageSet(l) ensures GrantBase(l, count) != 0 {
      forall p: nat | start <= p < start + count ensures Covers(l, p) { assert p in Span(start, count); }
      var i := RunInOneBlock(l, start, count);
    }
  }

  /** What it grants is the lowest such run. */
  lemma {:induction false} GrantLowest(l: seq<Block>, count: nat, start: nat)
    requires Coalesced(l) && count > 0 && Span(start, count) <= PageSet(l)
    ensures GrantBase(l, count) != 0 && GrantBase(l, count) <= start
  {
    forall p: nat | start <= p < start + count ensures Covers(l, p) { assert p in Span(start, count); }
    var i := RunInOneBlock(l, start, count);
    FitNoLater(l, count, i);
  }

  lemma {:induction false} FitNoLater(l: seq<Block>, count: nat, i: nat)
    requires Sorted(l) && i < |l| && l[i].pages >= count > 0
    ensures 0 < GrantBase(l, count) <= l[i].base
  {
    var k := FirstFit(l, count);
    assert k <= i;
    if k < i { assert End(l[k]) <= l[i].base; }
  }

  // ---- what release does to the set of free pages ------------------------------

  /** The pages to be returned are real, and none of them is free already. */
  ghost predicate Returnable(l: seq<Block>, base: nat, count: nat) {
    base > 0 && count > 0 && Span(base, count) !! PageSet(l)
  }

  lemma Apart(l: seq<Block>, base: nat, count: nat, i: nat)
    requires Sorted(l) && Returnable(l, base, count) && i < |l|
    ensures l[i].base < base ==> End(l[i]) <= base
    ensures l[i].base >= base ==> base + count <= l[i].base
  {
    assert l[i].base in PageSet(l) by { assert l[i].base <= l[i].base < End(l[i]); }
    assert base in Span(base, count);
    assert base in PageSet(l) <== l[i].base <= base < End(l[i]);
    assert l[i].base !in Span(base, count);
  }

  function MergeHigh(l: seq<Block>, base: nat, count: nat): (b: nat)
    ensures Below(l, base) <= b <= |l|
  {
    var k := Below(l, base);
    if k < |l| && base + count == l[k].base then k + 1 else k
  }

  function Merged(l: seq<Block>, base: nat, count: nat): Block {
    var k, a, b := Below(l, base), MergeLow(l, base), MergeHigh(l, base, count);
    var low := if a < k then l[a].base else base;
    var high := if k < b then End(l[k]) else base + count;
    Block(low, if low <= high then high - low else 0)
  }

  lemma SpliceSorted(l: seq<Block>, a: nat, b: nat, m: Block)
    requires Sorted(l) && a <= b <= |l| && m.pages > 0 && m.base > 0
    requires forall i :: 0 <= i < a ==> End(l[i]) <= m.base
    requires forall i :: b <= i < |l| ==> End(m) <= l[i].base
    ensures Sorted(Splice(l, a, b, m))
  {
    var r := Splice(l, a, b, m);
    assert forall i :: 0 <= i < |r| ==> r[i] == if i < a then l[i] else if i == a then m else l[b + i - a - 1];
  }

  lemma SpliceCoalesced(l: seq<Block>, a: nat, b: nat, m: Block)
    requires Coalesced(l) && a <= b <= |l| && m.pages > 0 && m.base > 0
    requires forall i :: 0 <= i < a ==> End(l[i]) < m.base
    requires forall i :: b <= i < |l| ==> End(m) < l[i].base
    ensures Coalesced(Splice(l, a, b, m))
  {
    SpliceSorted(l, a, b, m);
    var r := Splice(l, a, b, m);
    assert forall i :: 0 <= i < |r| ==> r[i] == if i < a then l[i] else if i == a then m else l[b + i - a - 1];
  }

  lemma SpliceCovers(l: seq<Block>, a: nat, b: nat, m: Block, p: nat)
    requires a <= b <= |l|
    ensures Covers(Splice(l, a, b, m), p) <==> Covers(l[..a], p) || m.base <= p < End(m) || Covers(l[b..], p)
    ensures Covers(l, p) <==> Covers(l[..a], p) || Covers(l[a..b], p) || Covers(l[b..], p)
  {
    assert l == l[..a] + l[a..b] + l[b..];
    Split3(l[..a], l[a..b], l[b..], p);
    Split3(l[..a], [m], l[b..], p);
    CoversOne(m, p);
  }

  lemma SpliceTotal(l: seq<Block>, a: nat, b: nat, m: Block)
    requires a <= b <= |l|
    ensures Total(Splice(l, a, b, m)) + Total(l[a..b]) == Total(l) + m.pages
  {
    var x, y, z := l[..a], l[a..b], l[b..];
    Rejoined(l, a, b);
    TotalSplit(x, y, z);
    TotalSplit(x, [m], z);
    TotalOne(m);
  }

  lemma Rejoined(l: seq<Block>, a: nat, b: nat)
    requires a <= b <= |l|
    ensures l == l[..a] + l[a..b] + l[b..]
  {
  }

  lemma TotalOne(m: Block)
    ensures Total([m]) == m.pages
  {
    assert [m][1..] == [];
  }

  lemma SpliceShape(l: seq<Block>, a: nat, k: nat, b: Block)
    requires a <= k <= |l|
    ensures var l1 := Splice(l, a, k, b);
      a < |l1| && l1[a] == b && (a + 1 < |l1| <==> k < |l|) && (k < |l| ==> l1[a + 1] == l[k])
  {
  }

  lemma SpliceTwice(l: seq<Block>, a: nat, k: nat, b: Block, b2: Block)
    requires a <= k < |l|
    ensures var l1 := Splice(l, a, k, b); a + 2 <= |l1| && Splice(l1, a, a + 2, b2) == Splice(l, a, k + 1, b2)
  {
    var l1 := Splice(l, a, k, b);
    assert l1[..a] == l[..a] && l1[a + 2..] == l[k + 1..];
  }

  /** A block spliced in that takes in its successor: one splice in all. */
  lemma MergeAtIs(l: seq<Block>, a: nat, k: nat, used: Block)
    requires a <= k <= |l|
    ensures var l1 := Splice(l, a, k, used);
      && a < |l1|
      && (k < |l| && End(used) == l[k].base ==>
            MergeAt(l1, a) == Splice(l, a, k + 1, Block(used.base, used.pages + l[k].pages)))
      && (!(k < |l| && End(used) == l[k].base) ==> MergeAt(l1, a) == l1)
  {
    SpliceShape(l, a, k, used);
    if k < |l| { SpliceTwice(l, a, k, used, Block(used.base, used.pages + l[k].pages)); }
  }

  lemma MergedIs(l: seq<Block>, base: nat, count: nat)
    requires Sorted(l) && Returnable(l, base, count)
    ensures var k, used := Below(l, base), Used(l, base, count);
      if k < |l| && End(used) == l[k].base
      then MergeHigh(l, base, count) == k + 1 && Merged(l, base, count) == Block(used.base, used.pages + l[k].pages)
      else MergeHigh(l, base, count) == k && Merged(l, base, count) == used
  {
  }

  lemma FreeSplice(l: seq<Block>, base: nat, count: nat)
    requires Sorted(l) && Returnable(l, base, count)
    ensures FreeList(l, base, count) ==
            Splice(l, MergeLow(l, base), MergeHigh(l, base, count), Merged(l, base, count))
  {
    MergedIs(l, base, count);
    MergeAtIs(l, MergeLow(l, base), Below(l, base), Used(l, base, count));
  }

  lemma MergedBounds(l: seq<Block>, base: nat, count: nat)
    requires Sorted(l) && Returnable(l, base, count)
    ensures var a, b, m := MergeLow(l, base), MergeHigh(l, base, count), Merged(l, base, count);
      && m.pages > 0 && m.base > 0
      && (forall i :: 0 <= i < a ==> End(l[i]) <= m.base)
      && (forall i :: b <= i < |l| ==> End(m) <= l[i].base)
  {
    forall i: nat | i < |l|
      ensures (l[i].base < base ==> End(l[i]) <= base) && (l[i].base >= base ==> base + count <= l[i].base)
    {
      Apart(l, base, count, i);
    }
  }

  lemma StrictlyBelow(l: seq<Block>, base: nat, count: nat, i: nat)
    requires Coalesced(l) && Returnable(l, base, count) && i < MergeLow(l, base)
    ensures End(l[i]) < Merged(l, base, count).base
  {
    Apart(l, base, count, i);
  }

  lemma StrictlyAbove(l: seq<Block>, base: nat, count: nat, i: nat)
    requires Coalesced(l) && Returnable(l, base, count) && MergeHigh(l, base, count) <= i < |l|
    ensures End(Merged(l, base, count)) < l[i].base
  {
    MergedEnd(l, base, count);
    var k := Below(l, base);
    Apart(l, base, count, k);
    if i > k { assert End(l[k]) < l[i].base; }
  }

  lemma MergedEnd(l: seq<Block>, base: nat, count: nat)
    requires Sorted(l) && Returnable(l, base, count)
    ensures var k, b, m := Below(l, base), MergeHigh(l, base, count), Merged(l, base, count);
      && (b == k || b == k + 1)
      && (b == k ==> End(m) == base + count && (k < |l| ==> End(m) != l[k].base))
      && (b == k + 1 ==> End(m) == End(l[k]))
  {
    MergedIs(l, base, count);
    assert End(Used(l, base, count)) == base + count;
  }

  lemma MergedStrictBounds(l: seq<Block>, base: nat, count: nat)
    requires Coalesced(l) && Returnable(l, base, count)
    ensures forall i :: 0 <= i < MergeLow(l, base) ==> End(l[i]) < Merged(l, base, count).base
    ensures forall i :: MergeHigh(l, base, count) <= i < |l| ==> End(Merged(l, base, count)) < l[i].base
  {
    forall i | 0 <= i < MergeLow(l, base) ensures End(l[i]) < Merged(l, base, count).base {
      StrictlyBelow(l, base, count, i);
    }
    forall i | MergeHigh(l, base, count) <= i < |l| ensures End(Merged(l, base, count)) < l[i].base {
      StrictlyAbove(l, base, count, i);
    }
  }

  lemma FreeSorted(l: seq<Block>, base: nat, count: nat)
    requires Sorted(l) && Returnable(l, base, count)
    ensures Sorted(FreeList(l, base, count))
    ensures Coalesced(l) ==> Coalesced(FreeList(l, base, count))
  {
    FreeSplice(l, base, count);
    MergedBounds(l, base, count);
    SpliceSorted(l, MergeLow(l, base), MergeHigh(l, base, count), Merged(l, base, count));
    if Coalesced(l) {
      MergedStrictBounds(l, base, count);
      SpliceCoalesced(l, MergeLow(l, base), MergeHigh(l, base, count), Merged(l, base, count));
    }
  }

  lemma MergedCovers(l: seq<Block>, base: nat, count: nat, p: nat)
    requires Sorted(l) && Returnable(l, base, count)
    ensures var a, b, m := MergeLow(l, base), MergeHigh(l, base, count), Merged(l, base, count);
      m.base <= p < End(m) <==> Covers(l[a..b], p) || base <= p < base + count
  {
    var k, a, b := Below(l, base), MergeLow(l, base), MergeHigh(l, base, count);
    TwoCovers(l, a, k, b, p);
    MergedIsUnion(l, base, count, p);
  }

  /** At most one block on either side of position k. */
  lemma TwoCovers(l: seq<Block>, a: nat, k: nat, b: nat, p: nat)
    requires a <= k <= b <= |l| && k <= a + 1 && b <= k + 1
    ensures Covers(l[a..b], p) <==> (a < k && l[a].base <= p < End(l[a])) || (k < b && l[k].base <= p < End(l[k]))
  {
    var low, high := l[a..k], l[k..b];
    assert l[a..b] == low + high;
    CoversConcat(low, high, p);
    if a < k { assert low == [l[a]]; CoversOne(l[a], p); }
    if k < b { assert high == [l[k]]; CoversOne(l[k], p); }
  }

  lemma MergedIsUnion(l: seq<Block>, base: nat, count: nat, p: nat)
    requires Sorted(l) && Returnable(l, base, count)
    ensures var k, a, b, m := Below(l, base), MergeLow(l, base), MergeHigh(l, base, count), Merged(l, base, count);
      && k <= a + 1 && b <= k + 1
      && (m.base <= p < End(m) <==>
            (a < k && l[a].base <= p < End(l[a])) || (k < b && l[k].base <= p < End(l[k])) || base <= p < base + count)
  {
  }

  lemma FreeCovers(l: seq<Block>, base: nat, count: nat, p: nat)
    requires Sorted(l) && Returnable(l, base, count)
    ensures Covers(FreeList(l, base, count), p) <==> Covers(l, p) || base <= p < base + count
  {
    FreeSplice(l, base, count);
    SpliceCovers(l, MergeLow(l, base), MergeHigh(l, base, count), Merged(l, base, count), p);
    MergedCovers(l, base, count, p);
  }

  lemma MergedTotal(l: seq<Block>, base: nat, count: nat)
    requires Sorted(l) && Returnable(l, base, count)
    ensures Merged(l, base, count).pages == Total(l[MergeLow(l, base)..MergeHigh(l, base, count)]) + count
  {
    TwoTotal(l, MergeLow(l, base), Below(l, base), MergeHigh(l, base, count));
    MergedPages(l, base, count);
  }

  lemma TwoTotal(l: seq<Block>, a: nat, k: nat, b: nat)
    requires a <= k <= b <= |l| && k <= a + 1 && b <= k + 1
    ensures Total(l[a..b]) == (if a < k then l[a].pages else 0) + (if k < b then l[k].pages else 0)
  {
    assert l[a..b] == l[a..k] + l[k..b];
    TotalConcat(l[a..k], l[k..b]);
    if a < k { assert l[a..k] == [l[a]]; }
    if k < b { assert l[k..b] == [l[k]]; }
  }

  lemma MergedPages(l: seq<Block>, base: nat, count: nat)
    requires Sorted(l) && Returnable(l, base, count)
    ensures var k, a, b := Below(l, base), MergeLow(l, base), MergeHigh(l, base, count);
      && k <= a + 1 && b <= k + 1
      && Merged(l, base, count).pages == (if a < k then l[a].pages else 0) + count + (if k < b then l[k].pages else 0)
  {
  }

  lemma FreeTotal(l: seq<Block>, base: nat, count: nat)
    requires Sorted(l) && Returnable(l, base, count)
    ensures Total(FreeList(l, base, count)) == Total(l) + count
  {
    FreeSplice(l, base, count);
    SpliceTotal(l, MergeLow(l, base), MergeHigh(l, base, count), Merged(l, base, count));
    MergedTotal(l, base, count);
  }

  /** Release adds exactly its own pages to the free set. */
  lemma FreePages(l: seq<Block>, base: nat, count: nat)
    requires Sorted(l) && Returnable(l, base, count)
    ensures PageSet(FreeList(l, base, count)) == PageSet(l) + Span(base, count)
    ensures Total(FreeList(l, base, count)) == Total(l) + count
  {
    forall p: nat
      ensures p in PageSet(FreeList(l, base, count)) <==> p in PageSet(l) || p in Span(base, count)
    {
      FreeCovers(l, base, count, p);
    }
    FreeTotal(l, base, count);
  }

  // ---- the list is determined by the set of free pages ---------------------------

  lemma HeadIsLowest(l: seq<Block>)
    requires Coalesced(l) && l != []
    ensures l[0].base in PageSet(l) && End(l[0]) !in PageSet(l)
    ensures forall p :: p in PageSet(l) ==> l[0].base <= p
    ensures forall p :: l[0].base <= p < End(l[0]) ==> p in PageSet(l)
    ensures PageSet(l[1..]) == PageSet(l) - Span(l[0].base, l[0].pages)
  {
    forall p: nat | l[0].base <= p < End(l[0]) ensures p in PageSet(l) && p !in PageSet(l[1..]) {
      OnlyBlock(l, 0, p);
    }
    assert l[0].base in PageSet(l);
    forall p: nat ensures p in PageSet(l) <==> l[0].base <= p < End(l[0]) || p in PageSet(l[1..]) {
      CoversCons(l, p);
    }
  }

  lemma TailCoalesced(l: seq<Block>)
    requires Coalesced(l) && l != []
    ensures Coalesced(l[1..])
  {
    var t := l[1..];
    assert forall i :: 0 <= i < |t| ==> t[i] == l[i + 1];
  }

  lemma EmptyIffNoPages(l: seq<Block>)
    requires Coalesced(l)
    ensures l == [] <==> PageSet(l) == {}
  {
    if l != [] { HeadIsLowest(l); }
  }

  lemma SameHead(a: seq<Block>, b: seq<Block>)
    requires Coalesced(a) && Coalesced(b) && PageSet(a) == PageSet(b) && a != [] && b != []
    ensures a[0] == b[0] && PageSet(a[1..]) == PageSet(b[1..])
  {
    HeadIsLowest(a);
    HeadIsLowest(b);
    assert a[0].base == b[0].base;
  }

  /** Two coalesced lists of the same pages are the same list. */
  lemma {:induction false} Unique(a: seq<Block>, b: seq<Block>)
    requires Coalesced(a) && Coalesced(b) && PageSet(a) == PageSet(b)
    ensures a == b
  {
    EmptyIffNoPages(a);
    EmptyIffNoPages(b);
    if a != [] {
      SameTail(a, b);
      Unique(a[1..], b[1..]);
      HeadAndTail(a, b);
    }
  }

  lemma SameTail(a: seq<Block>, b: seq<Block>)
    requires Coalesced(a) && Coalesced(b) && PageSet(a) == PageSet(b) && a != [] && b != []
    ensures a[0] == b[0] && Coalesced(a[1..]) && Coalesced(b[1..]) && PageSet(a[1..]) == PageSet(b[1..])
  {
    SameHead(a, b);
    TailCoalesced(a);
    TailCoalesced(b);
  }

  lemma HeadAndTail(a: seq<Block>, b: seq<Block>)
    requires a != [] && b != [] && a[0] == b[0] && a[1..] == b[1..]
    ensures a == b
  {
    assert a == [a[0]] + a[1..] && b == [b[0]] + b[1..];
  }

  /** Returning a block that was just taken restores the very same list. */
  lemma FreeUndoesAlloc(l: seq<Block>, count: nat)
    requires Coalesced(l) && GrantBase(l, count) != 0
    ensures FreeList(AllocList(l, count), GrantBase(l, count), count) == l
  {
    var l', b := AllocList(l, count), GrantBase(l, count);
    AllocSorted(l, count);
    AllocPages(l, count);
    GivenBack(l, l', b, count);
  }

  lemma GivenBack(l: seq<Block>, l': seq<Block>, b: nat, count: nat)
    requires Coalesced(l) && Coalesced(l') && b > 0 && count > 0
    requires Span(b, count) <= PageSet(l) && PageSet(l') == PageSet(l) - Span(b, count)
    ensures FreeList(l', b, count) == l
  {
    FreeSorted(l', b, count);
    FreePages(l', b, count);
    Unique(FreeList(l', b, count), l);
  }
}
