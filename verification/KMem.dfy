/**
 The page and slice allocator of kernel/kmem.c.  A free block keeps its length and
 the address of the next free block in its own first words; `hdr` is that memory,
 keyed by page number.  A slice is a quarter of a page, keyed by 4 * page + quarter.
 Addresses are never 0 inside a list: 0 is NULL.
 */
module KMem {
  import opened PageList
  import opened Regions
  import opened Slices
  import opened Wrappers

  /** blkinfo_t */
  datatype Header = Header(pages: nat, next: nat)

  /** Address of block i of the list, NULL past the end. */
  function Addr(l: seq<Block>, i: nat): nat {
    if i < |l| then l[i].base else 0
  }

  /** Block i has its header in memory, with the length and successor the list says. */
  ghost predicate HeaderOk(hdr: map<nat, Header>, l: seq<Block>, i: nat)
    requires i < |l|
  {
    l[i].base in hdr && hdr[l[i].base] == Header(l[i].pages, Addr(l, i + 1))
  }

  /** Following `next` from `head` visits exactly the blocks of `l`. */
  ghost predicate Chained(head: nat, hdr: map<nat, Header>, l: seq<Block>) {
    head == Addr(l, 0) && forall i: nat :: i < |l| ==> HeaderOk(hdr, l, i)
  }

  ghost predicate HeaderKept(hdr: map<nat, Header>, hdr': map<nat, Header>, l: seq<Block>, i: nat)
    requires i < |l|
  {
    l[i].base in hdr ==> l[i].base in hdr' && hdr'[l[i].base] == hdr[l[i].base]
  }

  /** Address of the block before position k, NULL standing for the list head itself. */
  function PrevAddr(l: seq<Block>, k: nat): nat
    requires k <= |l|
  {
    if k == 0 then 0 else l[k - 1].base
  }

  lemma DistinctBases(l: seq<Block>)
    requires Sorted(l)
    ensures forall i, j :: 0 <= i < j < |l| ==> l[i].base < l[j].base
  {
    assert forall i :: 0 <= i < |l| ==> l[i].base < End(l[i]);
  }

  /** Replacing l[a..b] by `mid` is a matter of the link before it and the header of `mid`. */
  lemma ChainReplaced(head: nat, hdr: map<nat, Header>, l: seq<Block>, a: nat, b: nat, mid: seq<Block>,
                      head': nat, hdr': map<nat, Header>)
    requires Chained(head, hdr, l) && a <= b <= |l| && |mid| <= 1
    requires forall i: nat :: i + 1 < a || b <= i < |l| ==> HeaderKept(hdr, hdr', l, i)
    requires var next := if mid == [] then Addr(l, b) else mid[0].base;
      if a == 0 then head' == next
      else head' == head && l[a - 1].base in hdr' && hdr'[l[a - 1].base] == Header(l[a - 1].pages, next)
    requires mid != [] ==> mid[0].base in hdr' && hdr'[mid[0].base] == Header(mid[0].pages, Addr(l, b))
    ensures Chained(head', hdr', l[..a] + mid + l[b..])
  {
    var r := l[..a] + mid + l[b..];
    var m := |mid|;
    assert Addr(r, a + m) == Addr(l, b);
    forall i: nat | i < |r| ensures HeaderOk(hdr', r, i) {
      if i < a - 1 {
        assert HeaderOk(hdr, l, i) && HeaderKept(hdr, hdr', l, i);
        assert r[i] == l[i] && r[i + 1] == l[i + 1];
      } else if i >= a + m {
        var o := b + i - a - m;
        assert HeaderOk(hdr, l, o) && HeaderKept(hdr, hdr', l, o);
        assert r[i] == l[o] && Addr(r, i + 1) == Addr(l, o + 1);
      }
    }
  }

  /** Memory and list head after `*pointer = link`; prev == 0 stands for the list head. */
  datatype PageLinks = PageLinks(head: nat, hdr: map<nat, Header>)

  function WithLink(m: PageLinks, prev: nat, link: nat): PageLinks
    requires prev == 0 || prev in m.hdr
  {
    if prev == 0 then m.(head := link) else m.(hdr := m.hdr[prev := m.hdr[prev].(next := link)])
  }

  /** What `*pointer` receives when `count` pages are taken from `block`. */
  function TakenLink(hdr: map<nat, Header>, block: nat, count: nat): nat
    requires block in hdr
  {
    if hdr[block].pages == count then hdr[block].next else block + count
  }

  /** Memory once the remainder of `block`, if any, has a header of its own. */
  function Carve(hdr: map<nat, Header>, block: nat, count: nat): map<nat, Header>
    requires block in hdr && count <= hdr[block].pages
  {
    if hdr[block].pages == count then hdr
    else hdr[block + count := Header(hdr[block].pages - count, hdr[block].next)]
  }

  lemma CarveKeepsHeaders(hdr: map<nat, Header>, l: seq<Block>, k: nat, count: nat)
    requires Sorted(l) && k < |l| && 0 < count <= l[k].pages
    requires HeaderOk(hdr, l, k)
    ensures forall i: nat :: i < |l| ==> HeaderKept(hdr, Carve(hdr, l[k].base, count), l, i)
  {
    DistinctBases(l);
    forall i: nat | i < |l| ensures HeaderKept(hdr, Carve(hdr, l[k].base, count), l, i) {
      assert i > k ==> End(l[k]) <= l[i].base;
    }
  }

  lemma LinkKeepsHeaders(hdr: map<nat, Header>, l: seq<Block>, k: nat, link: nat)
    requires Sorted(l) && k < |l| && l[k].base in hdr
    ensures var hdr' := hdr[l[k].base := hdr[l[k].base].(next := link)];
      forall i: nat :: i < |l| && i != k ==> HeaderKept(hdr, hdr', l, i)
  {
    DistinctBases(l);
  }

  lemma AllocChained(m: PageLinks, l: seq<Block>, count: nat)
    requires Sorted(l) && Chained(m.head, m.hdr, l) && count > 0 && FirstFit(l, count) < |l|
    ensures var k := FirstFit(l, count); var b := l[k].base;
      && HeaderOk(m.hdr, l, k)
      && (k == 0 || l[k - 1].base in Carve(m.hdr, b, count))
      && var m' := WithLink(m.(hdr := Carve(m.hdr, b, count)), PrevAddr(l, k), TakenLink(m.hdr, b, count));
         Chained(m'.head, m'.hdr, AllocList(l, count))
  {
    var k := FirstFit(l, count);
    AllocSplice(l, count);
    TakeChained(m, l, k, count);
  }

  lemma TakeChained(m: PageLinks, l: seq<Block>, k: nat, count: nat)
    requires Sorted(l) && Chained(m.head, m.hdr, l) && k < |l| && 0 < count <= l[k].pages
    ensures var b := l[k].base;
      && HeaderOk(m.hdr, l, k)
      && (k == 0 || l[k - 1].base in Carve(m.hdr, b, count))
      && var m' := WithLink(m.(hdr := Carve(m.hdr, b, count)), PrevAddr(l, k), TakenLink(m.hdr, b, count));
         Chained(m'.head, m'.hdr, l[..k] + Remainder(l[k], count) + l[k + 1..])
  {
    var b := l[k].base;
    assert HeaderOk(m.hdr, l, k);
    var link := TakenLink(m.hdr, b, count);
    var split := Carve(m.hdr, b, count);
    CarveKeepsHeaders(m.hdr, l, k, count);
    if k > 0 {
      assert HeaderOk(m.hdr, l, k - 1) && HeaderKept(m.hdr, split, l, k - 1);
      LinkKeepsHeaders(split, l, k - 1, link);
      var final := split[l[k - 1].base := split[l[k - 1].base].(next := link)];
      forall i: nat | i + 1 < k || k + 1 <= i < |l| ensures HeaderKept(m.hdr, final, l, i) {
        assert HeaderKept(m.hdr, split, l, i) && HeaderKept(split, final, l, i);
      }
      assert Remainder(l[k], count) != [] ==> l[k - 1].base < link;
      ChainReplaced(m.head, m.hdr, l, k, k + 1, Remainder(l[k], count), m.head, final);
    } else {
      ChainReplaced(m.head, m.hdr, l, k, k + 1, Remainder(l[k], count), link, split);
    }
  }

  /** The block the search ends at is the one granted. */
  lemma GrantIs(l: seq<Block>, count: nat, block: nat)
    requires Sorted(l) && count > 0 && block == Addr(l, FirstFit(l, count))
    ensures GrantBase(l, count) == block
    ensures block == 0 ==> AllocList(l, count) == l
    ensures block != 0 ==> FirstFit(l, count) < |l| && l[FirstFit(l, count)].base == block
  {
  }

  lemma AllocKeeps(l: seq<Block>, count: nat)
    requires Sorted(l) && count > 0 && FirstFit(l, count) < |l|
    ensures Sorted(AllocList(l, count)) && Total(AllocList(l, count)) == Total(l) - count
  {
    AllocSorted(l, count);
    AllocTotal(l, count);
  }

  // ---- release ------------------------------------------------------------------

  lemma WriteKeepsHeaders(hdr: map<nat, Header>, l: seq<Block>, base: nat, h: Header)
    requires forall i :: 0 <= i < |l| ==> l[i].base != base
    ensures var hdr' := hdr[base := h]; forall i: nat :: i < |l| ==> HeaderKept(hdr, hdr', l, i)
  {
  }

  lemma BelowIs(l: seq<Block>, base: nat, k: nat)
    requires k <= |l| && (forall i :: 0 <= i < k ==> l[i].base < base) && (k < |l| ==> l[k].base >= base)
    ensures Below(l, base) == k
  {
    if k > 0 { BelowIs(l[1..], base, k - 1); }
  }

  /** The new block goes between l[k - 1] and l[k]. */
  lemma InsertChained(m: PageLinks, l: seq<Block>, k: nat, b: Block)
    requires Sorted(l) && Chained(m.head, m.hdr, l) && k <= |l|
    requires forall i :: 0 <= i < |l| ==> l[i].base != b.base
    ensures var m1 := m.(hdr := m.hdr[b.base := Header(b.pages, Addr(l, k))]);
      && (k > 0 ==> l[k - 1].base in m1.hdr)
      && var m' := WithLink(m1, PrevAddr(l, k), b.base); Chained(m'.head, m'.hdr, Splice(l, k, k, b))
  {
    var hdr1 := m.hdr[b.base := Header(b.pages, Addr(l, k))];
    WriteKeepsHeaders(m.hdr, l, b.base, Header(b.pages, Addr(l, k)));
    if k > 0 {
      assert HeaderOk(m.hdr, l, k - 1) && HeaderKept(m.hdr, hdr1, l, k - 1);
      LinkKeepsHeaders(hdr1, l, k - 1, b.base);
      var final := hdr1[l[k - 1].base := hdr1[l[k - 1].base].(next := b.base)];
      forall i: nat | i + 1 < k || k <= i < |l| ensures HeaderKept(m.hdr, final, l, i) {
        assert HeaderKept(m.hdr, hdr1, l, i) && HeaderKept(hdr1, final, l, i);
      }
      ChainReplaced(m.head, m.hdr, l, k, k, [b], m.head, final);
    } else {
      ChainReplaced(m.head, m.hdr, l, k, k, [b], b.base, hdr1);
    }
  }

  /** Blocks i up to (not including) j become one block: only the header of block i changes. */
  lemma MergeChained(m: PageLinks, l: seq<Block>, i: nat, j: nat, pages: nat)
    requires Sorted(l) && Chained(m.head, m.hdr, l) && i < j <= |l|
    ensures Chained(m.head, m.hdr[l[i].base := Header(pages, Addr(l, j))], Splice(l, i, j, Block(l[i].base, pages)))
  {
    var final := m.hdr[l[i].base := Header(pages, Addr(l, j))];
    DistinctBases(l);
    forall x: nat | x < |l| && x != i ensures HeaderKept(m.hdr, final, l, x) {
    }
    if i > 0 { assert HeaderOk(m.hdr, l, i - 1) && HeaderKept(m.hdr, final, l, i - 1); }
    ChainReplaced(m.head, m.hdr, l, i, j, [Block(l[i].base, pages)], m.head, final);
  }

  lemma ListWithSorted(l: seq<Block>, base: nat, count: nat)
    requires Sorted(l) && Returnable(l, base, count)
    ensures Sorted(ListWith(l, base, count))
    ensures forall i :: 0 <= i < |l| ==> l[i].base != base
  {
    forall i: nat | i < |l|
      ensures (l[i].base < base ==> End(l[i]) <= base) && (l[i].base >= base ==> base + count <= l[i].base)
    {
      Apart(l, base, count, i);
    }
    SpliceSorted(l, MergeLow(l, base), Below(l, base), Used(l, base, count));
  }

  lemma PlacedShape(l: seq<Block>, base: nat, count: nat)
    ensures var l1, a, k := ListWith(l, base, count), MergeLow(l, base), Below(l, base);
      && a < |l1| && l1[a] == Used(l, base, count) && Addr(l1, a + 1) == Addr(l, k)
      && (a + 1 < |l1| <==> k < |l|)
      && (k < |l| ==> l1[a + 1] == l[k])
  {
    SpliceShape(l, MergeLow(l, base), Below(l, base), Used(l, base, count));
  }

  /** km_page_free_multi's two halves, in terms of the position k of the first block above `base`. */
  function PlaceAt(l: seq<Block>, k: nat, base: nat, count: nat): seq<Block>
    requires k <= |l|
  {
    if k > 0 && End(l[k - 1]) == base then Splice(l, k - 1, k, Block(l[k - 1].base, l[k - 1].pages + count))
    else Splice(l, k, k, Block(base, count))
  }

  function PlacedIndex(l: seq<Block>, k: nat, base: nat): nat
    requires k <= |l|
  {
    if k > 0 && End(l[k - 1]) == base then k - 1 else k
  }

  lemma PlacedIs(l: seq<Block>, base: nat, count: nat)
    ensures var k := Below(l, base);
      PlaceAt(l, k, base, count) == ListWith(l, base, count) && PlacedIndex(l, k, base) == MergeLow(l, base)
  {
  }

  lemma HalvesMakeFree(l: seq<Block>, base: nat, count: nat)
    requires Sorted(l) && Returnable(l, base, count)
    ensures var k := Below(l, base); var l1, a := PlaceAt(l, k, base, count), PlacedIndex(l, k, base);
      && Sorted(l1) && a < |l1| && Addr(l1, a + 1) == Addr(l, k)
      && l1[a].base == (if a < k then l[k - 1].base else base)
      && FreeList(l, base, count) == MergeAt(l1, a)
    ensures forall i :: 0 <= i < |l| ==> l[i].base != base
  {
    PlacedIs(l, base, count);
    assert Sorted(ListWith(l, base, count)) by { ListWithSorted(l, base, count); }
    assert forall i :: 0 <= i < |l| ==> l[i].base != base by { ListWithSorted(l, base, count); }
    PlacedShape(l, base, count);
  }

  lemma FreeKeeps(l: seq<Block>, base: nat, count: nat)
    requires Sorted(l) && Returnable(l, base, count)
    ensures Sorted(FreeList(l, base, count)) && Total(FreeList(l, base, count)) == Total(l) + count
  {
    FreeSorted(l, base, count);
    FreeTotal(l, base, count);
  }

  class KMem {
    var initialized: bool
    var freePages: nat
    var hdr: map<nat, Header>
    var nPages: nat
    var freeSlices: nat
    var sliceNext: map<nat, nat>
    var nSlices: nat

    ghost var list: seq<Block>    // the free blocks, in list order
    ghost var slices: seq<nat>    // the free slices, in list order
    ghost var carved: seq<nat>    // the pages carved into slices

    /** The statics before km_init. */
    constructor ()
      ensures !initialized && list == [] && slices == [] && carved == [] && PagesValid() && SlicesValid()
    {
      initialized, freePages, hdr, nPages := false, 0, map[], 0;
      freeSlices, sliceNext, nSlices := 0, map[], 0;
      list, slices, carved := [], [], [];
    }

    /** The links spell out `list`, which is in address order, and n_pages counts its pages. */
    ghost predicate PagesValid()
      reads this`freePages, this`hdr, this`nPages, this`list
    {
      && Sorted(list)
      && Chained(freePages, hdr, list)
      && nPages == Total(list)
    }

    /** The slice links spell out `slices`.  n_slices is not their number: carve_slices counts each of
        its four slices a second time. */
    ghost predicate SlicesValid()
      reads this`freeSlices, this`sliceNext, this`nSlices, this`slices, this`carved
    {
      SliceChain(freeSlices, sliceNext, slices) && nSlices == |slices| + 4 * |carved|
    }

    /** The allocator as a value, given what its callers hold. */
    ghost function View(out: set<nat>, lent: multiset<nat>): Pool
      reads this
    {
      Pool(list, slices, out, carved, lent)
    }

    /** `*pointer = link`, where pointer is the head of the list or the next field of a block. */
    method SetLink(prev: nat, link: nat)
      requires prev == 0 || prev in hdr
      modifies this`freePages, this`hdr
      ensures PageLinks(freePages, hdr) == WithLink(PageLinks(old(freePages), old(hdr)), prev, link)
    {
      if prev == 0 { freePages := link; } else { hdr := hdr[prev := hdr[prev].(next := link)]; }
    }

    /** The search loop of km_page_alloc: the first block that is large enough, and its predecessor. */
    method FindBlock(count: nat) returns (block: nat, prev: nat)
      requires PagesValid()
      ensures block == Addr(list, FirstFit(list, count))
      ensures prev == PrevAddr(list, FirstFit(list, count))
    {
      block, prev := freePages, 0;
      ghost var k := 0;
      while block != 0 && hdr[block].pages < count
        invariant k <= |list| && block == Addr(list, k) && prev == PrevAddr(list, k)
        invariant k < |list| ==> HeaderOk(hdr, list, k)
        invariant forall i :: 0 <= i < k ==> list[i].pages < count
        decreases |list| - k
      {
        prev, block := block, hdr[block].next;
        k := k + 1;
      }
      FirstFitIs(list, count, k);
    }

    /** The rest of km_page_alloc: unlink the block, or carve `count` pages off its front. */
    method TakeBlock(block: nat, prev: nat, count: nat)
      requires PagesValid() && count > 0
      requires var k := FirstFit(list, count); k < |list| && block == list[k].base && prev == PrevAddr(list, k)
      modifies this`freePages, this`hdr
      ensures Chained(freePages, hdr, AllocList(list, count))
    {
      AllocChained(PageLinks(freePages, hdr), list, count);
      var link;
      if hdr[block].pages == count {
        link := hdr[block].next;
      } else {
        link := block + count;
        hdr := hdr[link := Header(hdr[block].pages - count, hdr[block].next)];
      }
      assert hdr == Carve(old(hdr), block, count);
      assert link == TakenLink(old(hdr), block, count);
      SetLink(prev, link);
    }

    /** km_page_alloc */
    method PageAlloc(count: nat) returns (ok: bool, page: nat)
      requires PagesValid()
      modifies this`freePages, this`hdr, this`nPages, this`list
      ensures PagesValid() && ok == initialized
      ensures page == (if ok then GrantBase(old(list), count) else 0)
      ensures list == (if ok then AllocList(old(list), count) else old(list))
      ensures page == 0 ==> list == old(list)
    {
      if !initialized { return false, 0; }
      if count < 1 { return true, 0; }
      var block, prev := FindBlock(count);
      GrantIs(list, count, block);
      if block == 0 { return true, 0; }
      TakeBlock(block, prev, count);
      AllocKeeps(list, count);
      nPages := nPages - count;
      list := AllocList(list, count);
      return true, block;
    }

    /** km_page_free_multi */
    method PageFreeMulti(block: nat, count: nat) returns (ok: bool)
      requires PagesValid()
      requires initialized && block != 0 ==> Returnable(list, block, count)
      modifies this`freePages, this`hdr, this`nPages, this`list
      ensures PagesValid() && ok == initialized
      ensures list == (if ok && block != 0 then FreeList(old(list), block, count) else old(list))
    {
      if !initialized { return false; }
      if block == 0 { return true; }
      var prev, curr := FindSpot(block);
      FreeKeeps(list, block, count);
      Relink(block, count, prev, curr);
      nPages := nPages + count;
      return true;
    }

    /** The part of km_page_free_multi after the search. */
    method Relink(block: nat, count: nat, prev: nat, curr: nat)
      requires Sorted(list) && Chained(freePages, hdr, list) && Returnable(list, block, count)
      requires prev == PrevAddr(list, Below(list, block)) && curr == Addr(list, Below(list, block))
      modifies this`freePages, this`hdr, this`list
      ensures Chained(freePages, hdr, list) && list == FreeList(old(list), block, count)
    {
      ghost var k := Below(list, block);
      HalvesMakeFree(list, block, count);
      ghost var a := PlacedIndex(list, k, block);
      var used := Place(block, count, prev, k);
      MergeNext(used, curr, a);
    }


    /** Merge with the successor when they touch. */
    method MergeNext(used: nat, curr: nat, ghost a: nat)
      requires Sorted(list) && Chained(freePages, hdr, list) && a < |list|
      requires used == list[a].base && curr == Addr(list, a + 1)
      modifies this`hdr, this`list
      ensures Chained(freePages, hdr, list) && list == MergeAt(old(list), a)
    {
      assert HeaderOk(hdr, list, a);
      if curr != 0 {
        assert HeaderOk(hdr, list, a + 1);
        if used + hdr[used].pages == curr {
          MergeChained(PageLinks(freePages, hdr), list, a, a + 2, list[a].pages + list[a + 1].pages);
          hdr := hdr[used := Header(hdr[used].pages + hdr[curr].pages, hdr[curr].next)];
          list := MergeAt(list, a);
        }
      }
    }

    /** The search loop of km_page_free_multi: the free blocks on either side of `block`. */
    method FindSpot(block: nat) returns (prev: nat, curr: nat)
      requires PagesValid()
      ensures prev == PrevAddr(list, Below(list, block)) && curr == Addr(list, Below(list, block))
    {
      prev, curr := 0, freePages;
      ghost var k := 0;
      while curr != 0 && curr < block
        invariant k <= |list| && curr == Addr(list, k) && prev == PrevAddr(list, k)
        invariant k < |list| ==> HeaderOk(hdr, list, k)
        invariant forall i :: 0 <= i < k ==> list[i].base < block
        decreases |list| - k
      {
        prev, curr := curr, hdr[curr].next;
        k := k + 1;
      }
      BelowIs(list, block, k);
    }

    /** Merge `block` into its predecessor when they touch, or link it in after it. */
    method Place(block: nat, count: nat, prev: nat, ghost k: nat) returns (used: nat)
      requires Sorted(list) && Chained(freePages, hdr, list) && block != 0
      requires k <= |list| && prev == PrevAddr(list, k)
      requires forall i :: 0 <= i < |list| ==> list[i].base != block
      modifies this`freePages, this`hdr, this`list
      ensures list == PlaceAt(old(list), k, block, count) && Chained(freePages, hdr, list)
      ensures used == (if PlacedIndex(old(list), k, block) < k then prev else block)
    {
      assert k > 0 ==> HeaderOk(hdr, list, k - 1);
      if prev != 0 && prev + hdr[prev].pages == block {
        MergeChained(PageLinks(freePages, hdr), list, k - 1, k, list[k - 1].pages + count);
        hdr := hdr[prev := hdr[prev].(pages := hdr[prev].pages + count)];
        list := PlaceAt(list, k, block, count);
        used := prev;
      } else {
        Insert(block, count, prev, k);
        used := block;
      }
    }

    method Insert(block: nat, count: nat, prev: nat, ghost k: nat)
      requires Sorted(list) && Chained(freePages, hdr, list) && block != 0
      requires k <= |list| && prev == PrevAddr(list, k)
      requires PlaceAt(list, k, block, count) == list[..k] + [Block(block, count)] + list[k..]
      requires forall i :: 0 <= i < |list| ==> list[i].base != block
      modifies this`freePages, this`hdr, this`list
      ensures list == PlaceAt(old(list), k, block, count) && Chained(freePages, hdr, list)
    {
      assert k > 0 ==> HeaderOk(hdr, list, k - 1);
      InsertChained(PageLinks(freePages, hdr), list, k, Block(block, count));
      var next := if prev != 0 then hdr[prev].next else freePages;
      hdr := hdr[block := Header(count, next)];
      SetLink(prev, block);
      list := PlaceAt(list, k, block, count);
    }

    /** km_slice_free */
    method SliceFree(slice: nat) returns (ok: bool)
      requires SlicesValid()
      requires initialized ==> slice != 0 && slice !in slices
      modifies this`freeSlices, this`sliceNext, this`nSlices, this`slices
      ensures ok == initialized
      ensures slices == (if ok then [slice] + old(slices) else old(slices))
      ensures nSlices == old(nSlices) + if ok then 1 else 0
      ensures SliceChain(freeSlices, sliceNext, slices)
    {
      if !initialized { return false; }
      PushOne(slice);
      return true;
    }

    /** The loop of carve_slices. */
    method PushQuarters(page: nat)
      requires initialized && page != 0 && PagesValid() && SlicesValid() && slices == []
      modifies this`freeSlices, this`sliceNext, this`nSlices, this`slices, this`carved
      ensures PagesValid() && SlicesValid()
      ensures slices == WithQuarters(page, []) && carved == old(carved) + [page]
    {
      var ptr, i := 4 * page, 0;
      while i < 4
        invariant 0 <= i <= 4 && ptr == 4 * page + i
        invariant slices == Pushed(page, i) && nSlices == 4 * |carved| + 2 * i
        invariant SliceChain(freeSlices, sliceNext, slices) && carved == old(carved)
      {
        PushedBelow(page, i);
        PushOne(ptr);
        ptr := ptr + 1;
        nSlices := nSlices + 1;
        i := i + 1;
      }
      PushedAll(page);
      carved := carved + [page];
    }

    method PushOne(slice: nat)
      requires initialized && slice != 0 && slice !in slices
      requires SliceChain(freeSlices, sliceNext, slices)
      modifies this`freeSlices, this`sliceNext, this`nSlices, this`slices
      ensures slices == [slice] + old(slices) && nSlices == old(nSlices) + 1
      ensures SliceChain(freeSlices, sliceNext, slices)
    {
      SliceChainFrame(freeSlices, sliceNext, slices, slice, freeSlices);
      sliceNext := sliceNext[slice := freeSlices];
      freeSlices := slice;
      slices := [slice] + slices;
      nSlices := nSlices + 1;
    }

    /** carve_slices, called with no slice left; false when there is no page. */
    method CarveSlices() returns (ok: bool)
      requires PagesValid() && SlicesValid() && initialized && slices == []
      modifies this
      ensures PagesValid() && SlicesValid() && initialized
      ensures ok == (GrantBase(old(list), 1) != 0)
      ensures ok ==> View({}, multiset{}) == Slices.CarveSlices(old(View({}, multiset{})))
      ensures !ok ==> View({}, multiset{}) == old(View({}, multiset{}))
    {
      ghost var p := View({}, multiset{});
      var page := TakePage(p);
      if page == 0 { return false; }
      CarvePage(page, p);
      return true;
    }

    method TakePage(ghost p: Pool) returns (page: nat)
      requires initialized && PagesValid() && SlicesValid() && p == View({}, multiset{})
      modifies this`freePages, this`hdr, this`nPages, this`list
      ensures PagesValid() && SlicesValid() && page == GrantBase(p.list, 1)
      ensures View({}, multiset{}) == p.(list := AllocList(p.list, 1)) && (page == 0 ==> View({}, multiset{}) == p)
    {
      var _, b := PageAlloc(1);
      page := b;
    }

    /** The page becomes slices; p is the allocator before the page was granted. */
    method CarvePage(page: nat, ghost p: Pool)
      requires initialized && page != 0 && PagesValid() && SlicesValid() && p.slices == []
      requires page == GrantBase(p.list, 1) && View({}, multiset{}) == p.(list := AllocList(p.list, 1))
      modifies this`freeSlices, this`sliceNext, this`nSlices, this`slices, this`carved
      ensures PagesValid() && SlicesValid() && View({}, multiset{}) == Slices.CarveSlices(p)
    {
      PushQuarters(page);
      CarvedView(p, page, View({}, multiset{}));
    }

    /** km_slice_alloc; false when the kernel's assertions fail. */
    method SliceAlloc() returns (ok: bool, slice: nat)
      requires PagesValid() && SlicesValid()
      modifies this
      ensures PagesValid() && SlicesValid() && initialized == old(initialized)
      ensures ok == (initialized && old(Allowed(View({}, multiset{}), Op.SliceAlloc)))
      ensures ok ==> View({}, multiset{slice}) == old(Apply(View({}, multiset{}), Op.SliceAlloc))
      ensures !ok ==> View({}, multiset{}) == old(View({}, multiset{}))
    {
      if !initialized { return false, 0; }
      if freeSlices == 0 {
        ok := CarveSlices();
        if !ok { return false, 0; }
      }
      slice := TakeFirst();
      return true, slice;
    }

    method TakeFirst() returns (slice: nat)
      requires SlicesValid() && slices != []
      modifies this`freeSlices, this`nSlices, this`slices
      ensures SlicesValid() && View({}, multiset{slice}) == TakeSlice(old(View({}, multiset{})))
    {
      slice := freeSlices;
      nSlices := nSlices - 1;
      freeSlices := sliceNext[slice];
      slices := slices[1..];
    }

    /** add_block */
    method AddBlock(base: nat, length: nat)
      requires PagesValid() && base % SZ_PAGE == 0
      requires forall b :: BlockAt(base, length) == Some(b) ==>
        b.base > 0 && forall i :: 0 <= i < |list| ==> BlocksClear(list[i], b)
      modifies this`freePages, this`hdr, this`nPages, this`list
      ensures PagesValid()
      ensures list == match BlockAt(base, length) case None => old(list) case Some(b) => InsertBlock(old(list), b)
    {
      if length < SZ_PAGE { return; }
      var block, pages := base / SZ_PAGE, (length - length % SZ_PAGE) / SZ_PAGE;
      assert BlockAt(base, length) == Some(Block(block, pages));
      InsertSorted(list, Block(block, pages));
      InsertTotal(list, Block(block, pages));
      if freePages == 0 {
        hdr := hdr[block := Header(pages, 0)];
        freePages := block;
        nPages := pages;
        assert list == [];
        list := [Block(block, pages)];
        return;
      }
      NotABase(list, Block(block, pages));
      var prev, curr := FindSpot(block);
      LinkBlock(block, pages, prev, curr);
      nPages := nPages + pages;
    }

    /** The insertion at the end of add_block. */
    method LinkBlock(block: nat, pages: nat, prev: nat, curr: nat)
      requires Sorted(list) && Chained(freePages, hdr, list) && forall i :: 0 <= i < |list| ==> list[i].base != block
      requires prev == PrevAddr(list, Below(list, block)) && curr == Addr(list, Below(list, block))
      modifies this`freePages, this`hdr, this`list
      ensures Chained(freePages, hdr, list) && list == InsertBlock(old(list), Block(block, pages))
    {
      InsertChained(PageLinks(freePages, hdr), list, Below(list, block), Block(block, pages));
      hdr := hdr[block := Header(pages, curr)];
      SetLink(prev, block);
      list := InsertBlock(list, Block(block, pages));
    }

    /** km_init, given the entry count and the regions that follow it in memory. */
    method KmInit(entries: int, regions: seq<Region>)
      requires entries <= |regions|
      requires entries >= 1 ==> ValidTable(regions[..entries])
      modifies this
      ensures PagesValid() && SlicesValid() && slices == [] && carved == []
      ensures initialized == (entries >= 1)
      ensures list == if entries < 1 then [] else InitList(regions[..entries])
    {
      freeSlices, freePages := 0, 0;
      nPages, nSlices := 0, 0;
      initialized := false;
      list, slices, carved := [], [], [];
      if entries < 1 { return; }
      AddRegions(entries, regions);
      initialized := true;
    }

    /** km_init's loop. */
    method AddRegions(entries: int, regions: seq<Region>)
      requires PagesValid() && list == [] && 1 <= entries <= |regions| && ValidTable(regions[..entries])
      modifies this`freePages, this`hdr, this`nPages, this`list
      ensures PagesValid() && list == InitList(regions[..entries])
    {
      ghost var rs := regions[..entries];
      var i := 0;
      while i < entries
        invariant 0 <= i <= entries
        invariant PagesValid() && list == InitList(rs[..i])
      {
        InitNext(rs, i);
        AddRegion(regions[i]);
        i := i + 1;
      }
      assert rs[..i] == rs;
    }

    /** The body of km_init's loop. */
    method AddRegion(r: Region)
      requires PagesValid() && Sane(r)
      requires forall b :: BlockOf(r) == Some(b) ==> forall i :: 0 <= i < |list| ==> BlocksClear(list[i], b)
      modifies this`freePages, this`hdr, this`nPages, this`list
      ensures PagesValid()
      ensures list == match BlockOf(r) case None => old(list) case Some(b) => InsertBlock(old(list), b)
    {
      if r.acpi % 2 == 0 { return; }
      if r.acpi / 2 % 2 != 0 { return; }
      if r.kind != REGION_USABLE { return; }
      var base, length := r.base, r.length;
      var endpt := (base + length) % TWO_64;
      if base >= HIGH_CUTOFF || endpt >= HIGH_CUTOFF {
        if base > HIGH_CUTOFF { return; }
        endpt := HIGH_CUTOFF;
      }
      if base < LOW_CUTOFF || endpt < LOW_CUTOFF {
        if endpt < LOW_CUTOFF { return; }
        base := LOW_CUTOFF;
      }
      length := endpt - base;
      assert Clip(r) == Some((base % TWO_32, length % TWO_32));
      BlockPages(r, 0);
      AddBlock(base % TWO_32, length % TWO_32);
    }
  }

  /** The quarters of a page pushed so far by carve_slices. */
  function Pushed(page: nat, i: nat): seq<nat> {
    if i == 0 then [] else [4 * page + i - 1] + Pushed(page, i - 1)
  }

  lemma {:induction false} PushedBelow(page: nat, i: nat)
    ensures forall s :: s in Pushed(page, i) ==> s < 4 * page + i
  {
    if i > 0 { PushedBelow(page, i - 1); }
  }

  lemma PushedAll(page: nat)
    ensures Pushed(page, 4) == WithQuarters(page, [])
  {
    assert Pushed(page, 1) == [4 * page] + Pushed(page, 0);
    assert Pushed(page, 2) == [4 * page + 1] + Pushed(page, 1);
    assert Pushed(page, 3) == [4 * page + 2] + Pushed(page, 2);
  }

  lemma CarvedView(p: Pool, page: nat, q: Pool)
    requires page == GrantBase(p.list, 1) && q.list == AllocList(p.list, 1) && q.carved == p.carved + [page]
    requires p.slices == [] && q.slices == WithQuarters(page, []) && q.out == p.out && q.lent == p.lent
    ensures q == Slices.CarveSlices(p)
  {
    assert WithQuarters(page, []) == [4 * page + 3, 4 * page + 2, 4 * page + 1, 4 * page];
  }

  lemma AllocNothing(l: seq<Block>, count: nat)
    requires Sorted(l) && GrantBase(l, count) == 0
    ensures AllocList(l, count) == l
  {
  }

  lemma NotABase(l: seq<Block>, b: Block)
    requires Sorted(l) && b.pages > 0 && forall i :: 0 <= i < |l| ==> BlocksClear(l[i], b)
    ensures forall i :: 0 <= i < |l| ==> l[i].base != b.base
  {
  }

  lemma {:induction false} FirstFitIs(l: seq<Block>, count: nat, k: nat)
    requires k <= |l| && (forall i :: 0 <= i < k ==> l[i].pages < count)
    requires k < |l| ==> l[k].pages >= count
    ensures FirstFit(l, count) == k
  {
    if k > 0 { FirstFitIs(l[1..], count, k - 1); }
  }

  /** What km_init leaves: every page free, nothing carved, nothing held. */
  function Fresh(rs: seq<Region>): Pool { Pool(InitList(rs), [], {}, [], multiset{}) }

  /** From the memory map onwards, whatever the callers do, the whole pages of the map stay partitioned. */
  lemma MapConserved(rs: seq<Region>, ops: seq<Op>)
    requires ValidTable(rs) && AllAllowed(Fresh(rs), ops)
    ensures Conserved(ApplyAll(Fresh(rs), ops), PageSet(InitList(rs)))
  {
    InitSorted(rs);
    RunConserves(Fresh(rs), ops, PageSet(InitList(rs)));
  }

  /** And every request of every run is answered rightly if and only if no two usable regions of the
      map touch. */
  lemma MapToRun(rs: seq<Region>)
    requires ValidTable(rs)
    ensures AlwaysComplete(Fresh(rs)) <==> forall i, j :: 0 <= i < |rs| && 0 <= j < |rs| ==> !Touch(rs, i, j)
  {
    InitSorted(rs);
    InitCoalesced(rs);
    CompleteExactly(Fresh(rs), PageSet(InitList(rs)));
  }
}
