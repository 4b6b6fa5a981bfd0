/**
 The slice allocator of kernel/kmem.c as values: a list of free quarter-pages, and the
 whole allocator as a state machine over which pages and slices are conserved.
 A slice address is 4 * page + quarter.
 */
module Slices {
  import opened PageList
  import opened Sequences

  /** Following `next` from `head` visits exactly the slices of xs. */
  ghost predicate SliceChain(head: nat, next: map<nat, nat>, xs: seq<nat>)
    decreases |xs|
  {
    if xs == [] then head == 0
    else head != 0 && head == xs[0] && head in next && SliceChain(next[head], next, xs[1..])
  }

  lemma {:induction false} SliceChainFrame(head: nat, next: map<nat, nat>, xs: seq<nat>, a: nat, v: nat)
    requires SliceChain(head, next, xs) && a !in xs
    ensures SliceChain(head, next[a := v], xs)
    decreases |xs|
  {
    if xs != [] { SliceChainFrame(next[head], next, xs[1..], a, v); }
  }

  /** The four slices of a page, in the order carve_slices frees them. */
  function Quarters(page: nat): seq<nat> { [4 * page, 4 * page + 1, 4 * page + 2, 4 * page + 3] }

  function SlicesOf(pages: seq<nat>): multiset<nat> {
    if pages == [] then multiset{} else SlicesOf(pages[..|pages| - 1]) + multiset(Quarters(pages[|pages| - 1]))
  }

  lemma {:induction false} SliceCount(pages: seq<nat>, s: nat)
    ensures SlicesOf(pages)[s] == multiset(pages)[s / 4]
  {
    if pages != [] {
      var n := |pages| - 1;
      SliceCount(pages[..n], s);
      SplitLast(pages);
      QuarterCount(pages[n], s);
    }
  }

  lemma QuarterCount(page: nat, s: nat)
    ensures multiset(Quarters(page))[s] == if s / 4 == page then 1 else 0
  {
  }

  // ---- the allocator as a state machine ------------------------------------------------

  /** The free page list and free slice list, and who holds the rest: pages held by callers,
      pages carved up, and slices held by callers. */
  datatype Pool = Pool(list: seq<Block>, slices: seq<nat>, out: set<nat>, carved: seq<nat>, lent: multiset<nat>)

  datatype Op = PageAlloc(count: nat) | PageFree(base: nat, count: nat) | SliceAlloc | SliceFree(slice: nat)

  /** Callers only give back what they hold. */
  ghost predicate Allowed(p: Pool, op: Op) {
    match op
    case PageAlloc(_) => true
    case PageFree(base, count) => base > 0 && count > 0 && Span(base, count) <= p.out
    case SliceAlloc => p.slices != [] || GrantBase(p.list, 1) != 0
    case SliceFree(slice) => slice in p.lent
  }

  /** The slice list with the quarters of a page pushed on it, one after the other. */
  function WithQuarters(b: nat, xs: seq<nat>): seq<nat> { [4 * b + 3, 4 * b + 2, 4 * b + 1, 4 * b] + xs }

  /** carve_slices: a page becomes four free slices. */
  ghost function CarveSlices(p: Pool): Pool {
    var b := GrantBase(p.list, 1);
    p.(list := AllocList(p.list, 1), carved := p.carved + [b],
       slices := WithQuarters(b, p.slices))
  }

  ghost function TakeSlice(p: Pool): Pool
    requires p.slices != []
  {
    p.(slices := p.slices[1..], lent := p.lent + multiset{p.slices[0]})
  }

  ghost function Apply(p: Pool, op: Op): Pool
    requires Allowed(p, op)
  {
    match op
    case PageAlloc(count) =>
      if GrantBase(p.list, count) == 0 then p
      else p.(list := AllocList(p.list, count), out := p.out + Span(GrantBase(p.list, count), count))
    case PageFree(base, count) => p.(list := FreeList(p.list, base, count), out := p.out - Span(base, count))
    case SliceAlloc => TakeSlice(if p.slices == [] then CarveSlices(p) else p)
    case SliceFree(slice) => p.(slices := [slice] + p.slices, lent := p.lent - multiset{slice})
  }

  ghost predicate Partition(free: set<nat>, out: set<nat>, carved: set<nat>, arena: set<nat>) {
    free !! out !! carved && arena == free + out + carved
  }

  /** Free and held slices are exactly the slices of the carved pages, each once. */
  ghost predicate SlicesConserved(p: Pool) {
    Distinct(p.carved) && multiset(p.slices) + p.lent == SlicesOf(p.carved)
  }

  /** Free, held and carved pages partition the arena, and slices are conserved too. */
  ghost predicate Conserved(p: Pool, arena: set<nat>) {
    Sorted(p.list) && Partition(PageSet(p.list), p.out, Numbers(p.carved), arena) && SlicesConserved(p)
  }

  lemma MoveOut(free: set<nat>, out: set<nat>, carved: set<nat>, arena: set<nat>, g: set<nat>)
    requires Partition(free, out, carved, arena) && g <= free
    ensures Partition(free - g, out + g, carved, arena)
    ensures Partition(free - g, out, carved + g, arena)
  {
  }

  lemma MoveIn(free: set<nat>, out: set<nat>, carved: set<nat>, arena: set<nat>, g: set<nat>)
    requires Partition(free, out, carved, arena) && g <= out
    ensures g !! free && Partition(free + g, out - g, carved, arena)
  {
  }

  lemma CarvedMore(slices: seq<nat>, lent: multiset<nat>, carved: seq<nat>, b: nat)
    requires multiset(slices) + lent == SlicesOf(carved)
    ensures multiset(WithQuarters(b, slices)) + lent == SlicesOf(carved + [b])
  {
    SlicesAppend(carved, b);
    QuartersReversed(b, slices);
    Shift(multiset(slices), lent, SlicesOf(carved), multiset(Quarters(b)));
  }

  lemma CarvedSlices(p: Pool)
    requires SlicesConserved(p) && GrantBase(p.list, 1) !in Numbers(p.carved)
    ensures SlicesConserved(CarveSlices(p))
    ensures Numbers(CarveSlices(p).carved) == Numbers(p.carved) + {GrantBase(p.list, 1)}
  {
    var b := GrantBase(p.list, 1);
    DistinctAppend(p.carved, b);
    CarvedMore(p.slices, p.lent, p.carved, b);
  }

  lemma Shift(a: multiset<nat>, lent: multiset<nat>, all: multiset<nat>, more: multiset<nat>)
    requires a + lent == all
    ensures (a + more) + lent == all + more
  {
  }

  lemma SlicesAppend(pages: seq<nat>, b: nat)
    ensures SlicesOf(pages + [b]) == SlicesOf(pages) + multiset(Quarters(b))
  {
    assert (pages + [b])[..|pages|] == pages;
  }

  lemma QuartersReversed(b: nat, xs: seq<nat>)
    ensures multiset(WithQuarters(b, xs)) == multiset(xs) + multiset(Quarters(b))
  {
    var r := [4 * b + 3, 4 * b + 2, 4 * b + 1, 4 * b];
    assert multiset(r) == multiset(Quarters(b));
    assert multiset(r + xs) == multiset(r) + multiset(xs);
  }

  lemma CarveConserves(p: Pool, arena: set<nat>)
    requires Conserved(p, arena) && GrantBase(p.list, 1) != 0
    ensures Conserved(CarveSlices(p), arena)
  {
    var b := GrantBase(p.list, 1);
    GrantOne(p.list, b);
    CarvedSlices(p);
    MoveOut(PageSet(p.list), p.out, Numbers(p.carved), arena, {b});
  }

  lemma TakeConserves(p: Pool, arena: set<nat>)
    requires Conserved(p, arena) && p.slices != []
    ensures Conserved(TakeSlice(p), arena)
  {
    SplitFirst(p.slices);
    Lend(multiset(p.slices[1..]), p.slices[0], p.lent);
  }

  lemma Lend(rest: multiset<nat>, slice: nat, lent: multiset<nat>)
    ensures rest + (lent + multiset{slice}) == (multiset{slice} + rest) + lent
  {
  }

  lemma AllocConserves(p: Pool, count: nat, arena: set<nat>)
    requires Conserved(p, arena)
    ensures Conserved(Apply(p, PageAlloc(count)), arena)
  {
    if GrantBase(p.list, count) != 0 {
      AllocSorted(p.list, count);
      AllocPages(p.list, count);
      MoveOut(PageSet(p.list), p.out, Numbers(p.carved), arena, Span(GrantBase(p.list, count), count));
    }
  }

  lemma FreeConserves(p: Pool, base: nat, count: nat, arena: set<nat>)
    requires Conserved(p, arena) && Allowed(p, PageFree(base, count))
    ensures Conserved(Apply(p, PageFree(base, count)), arena)
  {
    MoveIn(PageSet(p.list), p.out, Numbers(p.carved), arena, Span(base, count));
    FreeSorted(p.list, base, count);
    FreePages(p.list, base, count);
  }

  lemma SliceAllocConserves(p: Pool, arena: set<nat>)
    requires Conserved(p, arena) && Allowed(p, SliceAlloc)
    ensures Conserved(Apply(p, SliceAlloc), arena)
  {
    if p.slices == [] {
      CarveConserves(p, arena);
      TakeConserves(CarveSlices(p), arena);
    } else {
      TakeConserves(p, arena);
    }
  }

  /** Every operation conserves pages and slices. */
  lemma ApplyConserves(p: Pool, op: Op, arena: set<nat>)
    requires Conserved(p, arena) && Allowed(p, op)
    ensures Conserved(Apply(p, op), arena)
  {
    match op
    case PageAlloc(count) => AllocConserves(p, count, arena);
    case PageFree(base, count) => FreeConserves(p, base, count, arena);
    case SliceAlloc => SliceAllocConserves(p, arena);
    case SliceFree(slice) =>
  }

  /** The quarters of a page come out last one first, and a freed slice is the next to be granted. */
  lemma SliceOrder(p: Pool, s: nat)
    requires Allowed(p, SliceAlloc)
    ensures p.slices == [] ==>
      var q, b := Apply(p, SliceAlloc), GrantBase(p.list, 1);
      q.lent == p.lent + multiset{4 * b + 3} && q.slices == [4 * b + 2, 4 * b + 1, 4 * b]
    ensures s in p.lent ==>
      var q := Apply(p, SliceFree(s));
      q.slices != [] && Apply(q, SliceAlloc).slices == p.slices && Apply(q, SliceAlloc).lent == p.lent
  {
    if s in p.lent {
      assert ([s] + p.slices)[1..] == p.slices;
      assert p.lent - multiset{s} + multiset{s} == p.lent;
    }
  }

  ghost predicate AllAllowed(p: Pool, ops: seq<Op>)
    decreases |ops|
  {
    ops == [] || (Allowed(p, ops[0]) && AllAllowed(Apply(p, ops[0]), ops[1..]))
  }

  ghost function ApplyAll(p: Pool, ops: seq<Op>): Pool
    requires AllAllowed(p, ops)
    decreases |ops|
  {
    if ops == [] then p else ApplyAll(Apply(p, ops[0]), ops[1..])
  }

  lemma KeepsCoalesced(p: Pool, op: Op, arena: set<nat>)
    requires Conserved(p, arena) && Allowed(p, op) && Coalesced(p.list)
    ensures Coalesced(Apply(p, op).list)
  {
    match op
    case PageAlloc(count) => AllocSorted(p.list, count);
    case PageFree(base, count) => FreeSorted(p.list, base, count);
    case SliceAlloc => AllocSorted(p.list, 1);
    case SliceFree(_) =>
  }

  /** Over every run: nothing is lost or handed out twice, and a list that started coalesced
      stays coalesced. */
  lemma {:induction false} RunConserves(p: Pool, ops: seq<Op>, arena: set<nat>)
    requires Conserved(p, arena) && AllAllowed(p, ops)
    ensures Conserved(ApplyAll(p, ops), arena)
    ensures Coalesced(p.list) ==> Coalesced(ApplyAll(p, ops).list)
    decreases |ops|
  {
    if ops != [] {
      ApplyConserves(p, ops[0], arena);
      if Coalesced(p.list) { KeepsCoalesced(p, ops[0], arena); }
      RunConserves(Apply(p, ops[0]), ops[1..], arena);
    }
  }

  lemma {:induction false} DistinctCount(xs: seq<nat>, x: nat)
    requires Distinct(xs)
    ensures multiset(xs)[x] <= 1
  {
    if xs != [] {
      var n := |xs| - 1;
      var t := xs[..n];
      assert xs == t + [xs[n]];
      assert forall i :: 0 <= i < n ==> t[i] == xs[i];
      DistinctCount(t, x);
      assert x == xs[n] ==> x !in t;
    }
  }

  /** No slice is handed out twice, or handed out while free; and it lies in a carved page, which
      is neither free nor held by anyone as a page. */
  lemma SliceExclusive(p: Pool, arena: set<nat>, s: nat)
    requires Conserved(p, arena) && s in p.lent
    ensures p.lent[s] == 1 && s !in p.slices
    ensures s / 4 in p.carved && s / 4 !in PageSet(p.list) && s / 4 !in p.out
  {
    SliceCount(p.carved, s);
    DistinctCount(p.carved, s / 4);
    assert (multiset(p.slices) + p.lent)[s] == SlicesOf(p.carved)[s];
    assert s / 4 in multiset(p.carved);
    assert s / 4 in Numbers(p.carved);
  }

  /** So after any run from a coalesced start an allocation fails only when no run of free pages
      is long enough, and the list is the only coalesced list of its pages. */
  lemma RunComplete(p: Pool, ops: seq<Op>, arena: set<nat>, count: nat)
    requires Conserved(p, arena) && Coalesced(p.list) && AllAllowed(p, ops) && count > 0
    ensures var q := ApplyAll(p, ops); GrantBase(q.list, count) == 0 <==> !HasRun(q.list, count)
  {
    RunConserves(p, ops, arena);
    AllocComplete(ApplyAll(p, ops).list, count);
  }

  // ---- completeness is exactly coalescing ---------------------------------------------------

  /** A request for `count` pages is refused only when no run of `count` free pages exists. */
  ghost predicate CompleteAt(l: seq<Block>, count: nat) {
    GrantBase(l, count) == 0 <==> !HasRun(l, count)
  }

  /** Whatever the callers do, every request is answered rightly. */
  ghost predicate AlwaysComplete(p: Pool) {
    forall ops: seq<Op>, count: nat :: AllAllowed(p, ops) && count > 0 ==> CompleteAt(ApplyAll(p, ops).list, count)
  }

  /** The largest block. */
  function Largest(l: seq<Block>): (m: nat)
    ensures forall i :: 0 <= i < |l| ==> l[i].pages <= m
    ensures l != [] ==> exists i :: 0 <= i < |l| && l[i].pages == m
  {
    if l == [] then 0 else
      var m := Largest(l[1..]);
      assert forall i :: 0 < i < |l| ==> l[i] == l[1..][i - 1];
      if l[1..] == [] || l[0].pages >= m then
        assert l[0].pages >= m;
        l[0].pages
      else
        assert exists i :: 0 <= i < |l[1..]| && l[1..][i].pages == m && l[i + 1].pages == m;
        m
  }

  /** Blocks a and a + 1 touch. */
  ghost predicate Touching(l: seq<Block>, a: nat) { a + 1 < |l| && End(l[a]) == l[a + 1].base }

  lemma NotCoalesced(l: seq<Block>) returns (a: nat)
    requires Sorted(l) && !Coalesced(l)
    ensures Touching(l, a)
  {
    var i, j :| 0 <= i < j < |l| && End(l[i]) >= l[j].base;
    BaseOrder(l, i + 1, j);
    a := i;
  }

  lemma BaseOrder(l: seq<Block>, i: nat, j: nat)
    requires Sorted(l) && i <= j < |l|
    ensures l[i].base <= l[j].base
  {
  }

  /** Together two touching blocks are a run, whatever the other blocks are. */
  lemma TouchingRun(l: seq<Block>, a: nat)
    requires Touching(l, a)
    ensures HasRun(l, l[a].pages + l[a + 1].pages)
  {
    BlockIn(l, a);
    BlockIn(l, a + 1);
    SpanUnion(l[a].base, l[a].pages, l[a + 1].pages);
    assert Span(l[a].base, l[a].pages + l[a + 1].pages) <= PageSet(l);
  }

  lemma BlockIn(l: seq<Block>, i: nat)
    requires i < |l|
    ensures Span(l[i].base, l[i].pages) <= PageSet(l)
  {
    forall p | p in Span(l[i].base, l[i].pages) ensures p in PageSet(l) { assert l[i].base <= p < End(l[i]); }
  }

  lemma SpanUnion(b: nat, m: nat, n: nat)
    ensures Span(b, m + n) == Span(b, m) + Span(b + m, n)
  {
  }

  lemma TooLarge(l: seq<Block>, count: nat)
    requires count > Largest(l)
    ensures GrantBase(l, count) == 0
  {
  }

  /** A request for the size of the largest block takes a whole block out of the list, and not one of
      two touching blocks that are smaller. */
  lemma TakeLargest(l: seq<Block>, a: nat) returns (a': nat)
    requires Sorted(l) && Touching(l, a) && l[a].pages + l[a + 1].pages <= Largest(l)
    ensures GrantBase(l, Largest(l)) != 0 && |AllocList(l, Largest(l))| < |l| && Touching(AllocList(l, Largest(l)), a')
  {
    var m := Largest(l);
    var k := FirstFit(l, m);
    assert l[a].pages > 0 && l[a + 1].pages > 0;
    assert k < |l| && l[k].pages == m;
    a' := StillTouching(l, k, a);
  }

  lemma StillTouching(l: seq<Block>, k: nat, a: nat) returns (a': nat)
    requires k < |l| && Touching(l, a) && k != a && k != a + 1
    ensures Touching(l[..k] + l[k + 1..], a')
  {
    a' := if a < k then a else a - 1;
    var r := l[..k] + l[k + 1..];
    assert r[a'] == l[a] && r[a' + 1] == l[a + 1];
  }

  /** After these operations a request for `count` pages is refused although there is a run. */
  ghost predicate Refused(p: Pool, ops: seq<Op>, count: nat) {
    AllAllowed(p, ops) && count > 0 && !CompleteAt(ApplyAll(p, ops).list, count)
  }

  lemma RefusedNow(p: Pool, a: nat, count: nat)
    requires Touching(p.list, a) && count == p.list[a].pages + p.list[a + 1].pages > Largest(p.list)
    ensures Refused(p, [], count)
  {
    TouchingRun(p.list, a);
    TooLarge(p.list, count);
    NoOps(p, count);
  }

  lemma NoOps(p: Pool, count: nat)
    requires count > 0 && !CompleteAt(p.list, count)
    ensures Refused(p, [], count)
  {
  }

  /** From a list with touching blocks some callers get a wrong refusal. */
  lemma {:induction false} WrongRefusal(p: Pool, arena: set<nat>, a: nat) returns (ops: seq<Op>, count: nat)
    requires Conserved(p, arena) && Touching(p.list, a)
    ensures Refused(p, ops, count)
    decreases |p.list|
  {
    var m := Largest(p.list);
    if p.list[a].pages + p.list[a + 1].pages > m {
      ops, count := [], p.list[a].pages + p.list[a + 1].pages;
      RefusedNow(p, a, count);
    } else {
      var op := PageAlloc(m);
      var a' := TakeLargest(p.list, a);
      AllocConserves(p, m, arena);
      var rest;
      rest, count := WrongRefusal(Apply(p, op), arena, a');
      ops := [op] + rest;
      FirstOp(p, op, rest, count);
    }
  }

  lemma FirstOp(p: Pool, op: Op, rest: seq<Op>, count: nat)
    requires Allowed(p, op) && Refused(Apply(p, op), rest, count)
    ensures Refused(p, [op] + rest, count)
  {
    assert ([op] + rest)[1..] == rest;
    assert ApplyAll(p, [op] + rest) == ApplyAll(Apply(p, op), rest);
  }

  /** So every request of every run is answered rightly if and only if the list starts out coalesced. */
  lemma CompleteExactly(p: Pool, arena: set<nat>)
    requires Conserved(p, arena)
    ensures AlwaysComplete(p) <==> Coalesced(p.list)
  {
    if Coalesced(p.list) {
      forall ops: seq<Op>, count: nat | AllAllowed(p, ops) && count > 0
        ensures CompleteAt(ApplyAll(p, ops).list, count)
      {
        RunComplete(p, ops, arena, count);
      }
    } else {
      var a := NotCoalesced(p.list);
      var ops, count := WrongRefusal(p, arena, a);
    }
  }

  lemma RunUnique(p: Pool, ops: seq<Op>, arena: set<nat>, l: seq<Block>)
    requires Conserved(p, arena) && Coalesced(p.list) && AllAllowed(p, ops) && Coalesced(l)
    requires var q := ApplyAll(p, ops); PageSet(l) == arena - q.out - Numbers(q.carved)
    ensures l == ApplyAll(p, ops).list
  {
    RunConserves(p, ops, arena);
    var q := ApplyAll(p, ops);
    Leftover(PageSet(q.list), q.out, Numbers(q.carved), arena);
    Unique(l, q.list);
  }

  lemma Leftover(free: set<nat>, out: set<nat>, carved: set<nat>, arena: set<nat>)
    requires Partition(free, out, carved, arena)
    ensures free == arena - out - carved
  {
  }
}
