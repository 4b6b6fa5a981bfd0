/**
 Memory as the process core uses it.  QnodeLaw counts queue nodes against the pages
 bought for them; PagesLaw says stacks, qnode pages and free pages partition the arena;
 StacksLaw says every stack has exactly one owner: the kernel, a live PCB, or the free list.
 */
module ProcMem {
  import opened QueueSpec
  import opened PageList
  import opened Sequences
  import opened ProcSpec

  // ---- queue nodes ------------------------------------------------------------------

  function Entries(s: St): nat
    requires |s.ready| == N_PRIOS
  {
    |s.ready[0]| + |s.ready[1]| + |s.ready[2]| + |s.sleeping| + |s.zombie|
  }

  /** Free nodes and queue entries together are exactly the nodes of the pages bought. */
  ghost predicate QnodeLaw(s: St) {
    |s.ready| == N_PRIOS && s.mem.qfree + Entries(s) == QNODES_PER_PAGE * |s.mem.qpages|
  }

  // ---- pages ------------------------------------------------------------------------

  ghost predicate Separate(xs: seq<nat>) {
    forall i, j :: 0 <= i < j < |xs| ==> xs[i] + STACK_PAGES <= xs[j] || xs[j] + STACK_PAGES <= xs[i]
  }

  ghost function StackSpans(xs: seq<nat>): set<nat> {
    if xs == [] then {} else StackSpans(xs[..|xs| - 1]) + Span(xs[|xs| - 1], STACK_PAGES)
  }

  ghost predicate PagesLaw(m: Mem, arena: set<nat>) {
    && Sorted(m.free) && Separate(m.stacks)
    && (forall x :: x in m.stacks ==> x != 0)
    && Distinct(m.qpages) && m.qpages != []
    && PageSet(m.free) !! StackSpans(m.stacks) !! Numbers(m.qpages)
    && arena == PageSet(m.free) + StackSpans(m.stacks) + Numbers(m.qpages)
  }

  lemma {:induction false} SpansHold(xs: seq<nat>, i: nat)
    requires i < |xs|
    ensures Span(xs[i], STACK_PAGES) <= StackSpans(xs)
  {
    if i < |xs| - 1 {
      assert xs[..|xs| - 1][i] == xs[i];
      SpansHold(xs[..|xs| - 1], i);
    }
  }

  lemma SeparateAppend(xs: seq<nat>, b: nat)
    requires Separate(xs) && Span(b, STACK_PAGES) !! StackSpans(xs)
    ensures Separate(xs + [b])
    ensures StackSpans(xs + [b]) == StackSpans(xs) + Span(b, STACK_PAGES)
  {
    assert (xs + [b])[..|xs|] == xs;
    forall i: nat | i < |xs| ensures xs[i] + STACK_PAGES <= b || b + STACK_PAGES <= xs[i] {
      SpansHold(xs, i);
      assert b in Span(b, STACK_PAGES) && b + 1 in Span(b, STACK_PAGES);
      assert b !in Span(xs[i], STACK_PAGES) && b + 1 !in Span(xs[i], STACK_PAGES);
    }
  }

  /** Buying a page for queue nodes. */
  lemma PagesTakeQnode(m: Mem, arena: set<nat>)
    requires PagesLaw(m, arena) && TakeQnode(m).Some?
    ensures PagesLaw(TakeQnode(m).value, arena)
  {
    if m.qfree == 0 {
      var b := GrantBase(m.free, 1);
      GrantOne(m.free, b);
      DistinctAppend(m.qpages, b);
    }
  }

  /** Buying or reusing a stack. */
  lemma PagesTakeStack(m: Mem, arena: set<nat>)
    requires PagesLaw(m, arena)
    ensures PagesLaw(TakeStack(m), arena)
  {
    if m.stkHead == 0 && GrantBase(m.free, STACK_PAGES) != 0 {
      AllocSorted(m.free, STACK_PAGES);
      AllocPages(m.free, STACK_PAGES);
      SeparateAppend(m.stacks, GrantBase(m.free, STACK_PAGES));
    }
  }

  // ---- stacks -----------------------------------------------------------------------

  function Holding(c: Pcb): multiset<int> {
    if c.state == Unused then multiset{} else multiset{c.stack}
  }

  /** The stacks of the live PCBs. */
  function Held(pt: seq<Pcb>): multiset<int> {
    if pt == [] then multiset{} else Held(pt[..|pt| - 1]) + Holding(pt[|pt| - 1])
  }

  lemma {:induction false} HeldUpdate(pt: seq<Pcb>, x: int, c: Pcb)
    requires Slot(pt, x)
    ensures Holding(pt[x]) <= Held(pt)
    ensures Held(pt[x := c]) == Held(pt) - Holding(pt[x]) + Holding(c)
  {
    var n := |pt| - 1;
    if x == n {
      assert pt[x := c][..n] == pt[..n];
      Replace(Held(pt[..n]), Holding(pt[n]), Holding(c));
    } else {
      assert pt[x := c][..n] == pt[..n][x := c];
      HeldUpdate(pt[..n], x, c);
      Regroup(Held(pt[..n]), Holding(pt[x]), Holding(c), Holding(pt[n]));
    }
  }

  lemma {:induction false} HeldSame(pt: seq<Pcb>, pt': seq<Pcb>)
    requires |pt'| == |pt| && forall i :: 0 <= i < |pt| ==> Holding(pt'[i]) == Holding(pt[i])
    ensures Held(pt') == Held(pt)
  {
    if pt != [] { HeldSame(pt[..|pt| - 1], pt'[..|pt| - 1]); }
  }

  /** Following the links from `head` visits exactly the stacks of `xs`. */
  ghost predicate Chain(head: nat, link: map<nat, nat>, xs: seq<nat>)
    decreases |xs|
  {
    if xs == [] then head == 0
    else head != 0 && head == xs[0] && Chain(LinkIn(link, head), link, xs[1..])
  }

  lemma {:induction false} ChainFrame(head: nat, link: map<nat, nat>, xs: seq<nat>, a: nat, v: nat)
    requires Chain(head, link, xs) && a !in xs
    ensures Chain(head, link[a := v], xs)
    decreases |xs|
  {
    if xs != [] { ChainFrame(LinkIn(link, head), link, xs[1..], a, v); }
  }

  ghost predicate Owners(pt: seq<Pcb>, m: Mem, xs: seq<nat>) {
    && Chain(m.stkHead, m.link, xs)
    && multiset(m.stacks) == multiset{m.kstack} + Held(pt) + multiset(xs)
  }

  ghost predicate StacksLaw(pt: seq<Pcb>, m: Mem) {
    exists xs: seq<nat> :: Owners(pt, m, xs)
  }

  lemma SeparateOnce(xs: seq<nat>)
    requires Separate(xs)
    ensures forall x :: multiset(xs)[x] <= 1
  {
    if xs != [] {
      var n := |xs| - 1;
      var t := xs[..n];
      assert Separate(t) by { assert forall i :: 0 <= i < n ==> t[i] == xs[i]; }
      SeparateOnce(t);
      assert xs == t + [xs[n]];
      assert xs[n] !in t by { assert forall i :: 0 <= i < n ==> t[i] != xs[n]; }
    }
  }

  /** Two owners never overlap. */
  lemma OwnersDistinct(pt: seq<Pcb>, m: Mem, xs: seq<nat>, p: int, q: int)
    requires Owners(pt, m, xs) && Separate(m.stacks) && Live(pt, p) && Live(pt, q) && p != q
    ensures pt[p].stack != pt[q].stack && pt[p].stack != m.kstack && pt[p].stack !in xs
    ensures pt[p].stack in m.stacks
  {
    SeparateOnce(m.stacks);
    HeldUpdate(pt, p, pt[p].(state := Unused));
    HeldUpdate(pt[p := pt[p].(state := Unused)], q, pt[q]);
    var a := pt[p].stack;
    assert multiset(m.stacks)[a] == multiset{m.kstack}[a] + Held(pt)[a] + multiset(xs)[a];
    assert Held(pt)[a] >= 1;
  }

  /** The head of the free stack list is on it only once. */
  lemma FreeOnce(pt: seq<Pcb>, m: Mem, xs: seq<nat>)
    requires Owners(pt, m, xs) && Separate(m.stacks) && m.stkHead != 0
    ensures xs != [] && xs[0] == m.stkHead && m.stkHead !in xs[1..]
    ensures Chain(LinkIn(m.link, m.stkHead), m.link[m.stkHead := 0], xs[1..])
  {
    var t := xs[1..];
    assert xs == [m.stkHead] + t;
    SeparateOnce(m.stacks);
    var mx: multiset<int>, ms: multiset<int> := multiset(xs), multiset(m.stacks);
    assert mx[m.stkHead] <= ms[m.stkHead] <= 1;
    ChainFrame(LinkIn(m.link, m.stkHead), m.link, t, m.stkHead, 0);
  }

  lemma HandOver(all: multiset<int>, k: nat, held: multiset<int>, xs: seq<nat>, a: nat)
    requires xs != [] && xs[0] == a && all == multiset{k as int} + held + multiset(xs)
    ensures all == multiset{k as int} + (held + multiset{a as int}) + multiset(xs[1..])
  {
    assert xs == [a] + xs[1..];
  }

  lemma BuyStack(all: multiset<int>, k: nat, held: multiset<int>, a: nat, stacks: seq<nat>)
    requires all == multiset{k as int} + held && all == multiset(stacks)
    ensures multiset(stacks + [a]) == multiset{k as int} + (held + multiset{a as int})
  {
  }

  /** fork(): a stack changes hands from the free list, or from the page allocator, to the child. */
  lemma StacksFork(pt: seq<Pcb>, m: Mem, n: int, c: Pcb)
    requires StacksLaw(pt, m) && Separate(m.stacks) && Slot(pt, n) && pt[n].state == Unused
    requires c.state != Unused && c.stack == StackGranted(m) != 0
    ensures StacksLaw(pt[n := c], TakeStack(m))
  {
    var xs :| Owners(pt, m, xs);
    if m.stkHead != 0 {
      StacksReuse(pt, m, n, c, xs);
    } else {
      StacksBuy(pt, m, n, c, xs);
    }
  }

  lemma StacksReuse(pt: seq<Pcb>, m: Mem, n: int, c: Pcb, xs: seq<nat>)
    requires Owners(pt, m, xs) && Separate(m.stacks) && Slot(pt, n) && pt[n].state == Unused
    requires c.state != Unused && m.stkHead != 0 && c.stack == m.stkHead
    ensures xs != [] && Owners(pt[n := c], TakeStack(m), xs[1..])
  {
    HeldUpdate(pt, n, c);
    FreeOnce(pt, m, xs);
    HandOver(multiset(m.stacks), m.kstack, Held(pt), xs, m.stkHead);
  }

  lemma StacksBuy(pt: seq<Pcb>, m: Mem, n: int, c: Pcb, xs: seq<nat>)
    requires Owners(pt, m, xs) && Slot(pt, n) && pt[n].state == Unused
    requires c.state != Unused && m.stkHead == 0 && c.stack == StackGranted(m) != 0
    ensures Owners(pt[n := c], TakeStack(m), xs)
  {
    HeldUpdate(pt, n, c);
    assert xs == [];
    BuyStack(multiset(m.stacks), m.kstack, Held(pt), c.stack, m.stacks);
  }

  /** pcb_cleanup(): the stack goes back to the free list. */
  lemma StacksCleanup(pt: seq<Pcb>, m: Mem, x: int, c: Pcb)
    requires StacksLaw(pt, m) && Separate(m.stacks) && Live(pt, x) && c.state == Unused && pt[x].stack != 0
    ensures StacksLaw(pt[x := c], GiveStack(m, pt[x].stack))
  {
    var xs :| Owners(pt, m, xs);
    var a := pt[x].stack;
    HeldUpdate(pt, x, c);
    SeparateOnce(m.stacks);
    HandBack(multiset(m.stacks), m.kstack, Held(pt), xs, a);
    ChainFrame(m.stkHead, m.link, xs, a, m.stkHead);
    ChainPush(m.stkHead, m.link, xs, a);
    assert Owners(pt[x := c], GiveStack(m, a), [a] + xs);
  }

  lemma HandBack(all: multiset<int>, k: nat, held: multiset<int>, xs: seq<nat>, a: nat)
    requires all == multiset{k as int} + held + multiset(xs) && held[a] > 0 && all[a] <= 1
    ensures a !in xs && all == multiset{k as int} + (held - multiset{a as int}) + multiset([a] + xs)
  {
    assert a !in multiset(xs);
  }

  lemma ChainPush(head: nat, link: map<nat, nat>, xs: seq<nat>, a: nat)
    requires a != 0 && Chain(head, link[a := head], xs)
    ensures Chain(a, link[a := head], [a] + xs)
  {
    assert ([a] + xs)[1..] == xs;
  }

  lemma StacksSame(pt: seq<Pcb>, pt': seq<Pcb>, m: Mem, m': Mem)
    requires StacksLaw(pt, m) && |pt'| == |pt|
    requires forall i :: 0 <= i < |pt| ==> Holding(pt'[i]) == Holding(pt[i])
    requires m'.stacks == m.stacks && m'.kstack == m.kstack && m'.stkHead == m.stkHead && m'.link == m.link
    ensures StacksLaw(pt', m')
  {
    var xs :| Owners(pt, m, xs);
    HeldSame(pt, pt');
    assert Owners(pt', m', xs);
  }
}
