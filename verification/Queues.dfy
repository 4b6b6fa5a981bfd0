/**
 The queue module of kernel/queues.c: eight queues of linked nodes and one list of free
 nodes, all over the same pool, refilled a page at a time.  The ghost fields say which
 nodes are on which list; each operation is proved against QueueSpec.
 */
module Queues {
  import opened Wrappers
  import opened QueueSpec
  import opened QNodes
  import opened Sequences
  import opened PageList
  import KMem

  const N_QUEUES: nat := 8

  /** Owner tags: queues are 0..7, then the free list; a node in use by a call is on no list. */
  const FREE: int := 8
  const HAND: int := 9

  /** struct queue_s */
  datatype Queue = Queue(head: nat, tail: nat, count: nat, order: Order)

  datatype Ecode = E_SUCCESS | E_BAD_PARAM | E_EMPTY | E_NOT_FOUND

  type Owner = map<nat, int>

  /** A list of distinct nodes, all owned by `tag`, reached from `head`. */
  ghost predicate ListOk(mem: Memory, own: Owner, head: nat, xs: seq<nat>, tag: int) {
    && head == First(xs) && Links(mem, xs) && Distinct(xs)
    && forall i :: 0 <= i < |xs| ==> xs[i] in own && own[xs[i]] == tag
  }

  ghost predicate QueueOk(mem: Memory, own: Owner, q: Queue, xs: seq<nat>, tag: int) {
    ListOk(mem, own, q.head, xs, tag) && q.tail == Last(xs) && q.count == |xs|
  }

  /** Nothing that `tag` owns is touched. */
  ghost predicate Untouched(mem: Memory, mem': Memory, own: Owner, own': Owner, tag: int) {
    forall a :: a in own && own[a] == tag ==> a in own' && own'[a] == tag && SameNode(mem, mem', a)
  }

  lemma ListKept(mem: Memory, mem': Memory, own: Owner, own': Owner, head: nat, xs: seq<nat>, tag: int)
    requires ListOk(mem, own, head, xs, tag) && Untouched(mem, mem', own, own', tag)
    ensures ListOk(mem', own', head, xs, tag) && Datas(mem', xs) == Datas(mem, xs)
  {
    LinksFrame(mem, mem', xs);
  }

  /** A node that some other owner holds is not on this list. */
  lemma NotOnList(mem: Memory, own: Owner, head: nat, xs: seq<nat>, tag: int, a: nat)
    requires ListOk(mem, own, head, xs, tag) && (a !in own || own[a] != tag)
    ensures a !in xs
  {
  }

  lemma NullIfEmpty(mem: Memory, own: Owner, head: nat, xs: seq<nat>, tag: int)
    requires ListOk(mem, own, head, xs, tag)
    ensures head == 0 <==> xs == []
  {
    if xs != [] { assert NodeAt(mem, xs, 0); }
  }

  /** qnode_free: the node goes to the front of the list. */
  lemma ListCons(mem: Memory, own: Owner, head: nat, xs: seq<nat>, tag: int, n: nat, d: int)
    requires ListOk(mem, own, head, xs, tag) && n != 0 && (n !in own || own[n] != tag)
    ensures ListOk(mem[n := QNode(d, head)], own[n := tag], n, [n] + xs, tag)
  {
    var mem' := mem[n := QNode(d, head)];
    NotOnList(mem, own, head, xs, tag, n);
    forall i: nat | i < |xs| ensures SameNode(mem, mem', xs[i]) {}
    assert xs[0..] == xs && xs[..0] + [n] + xs[0..] == [n] + xs;
    LinksReplaced(mem, xs, 0, 0, [n], mem');
  }

  /** The first node leaves the list. */
  lemma ListTail(mem: Memory, mem': Memory, own: Owner, head: nat, xs: seq<nat>, tag: int, tag': int)
    requires ListOk(mem, own, head, xs, tag) && head != 0 && tag' != tag
    requires forall a :: a in mem && a != head ==> SameNode(mem, mem', a)
    ensures xs != [] && head == xs[0] && head in mem
    ensures ListOk(mem', own[head := tag'], mem[head].next, xs[1..], tag)
    ensures Datas(mem', xs[1..]) == Datas(mem, xs)[1..]
  {
    assert NodeAt(mem, xs, 0);
    var t := xs[1..];
    assert forall i :: 0 <= i < |t| ==> t[i] == xs[i + 1];
    forall i: nat | i < |t| ensures NodeAt(mem', t, i) && DataOf(mem', t[i]) == DataOf(mem, xs[i + 1]) {
      assert NodeAt(mem, xs, i + 1) && SameNode(mem, mem', xs[i + 1]);
    }
  }

  /** Inserting node n at position k: its predecessor, or the head, now points to it. */
  lemma ListInsert(mem: Memory, own: Owner, head: nat, xs: seq<nat>, tag: int, k: nat, n: nat, d: int)
    requires ListOk(mem, own, head, xs, tag) && k <= |xs| && n != 0 && (n !in own || own[n] != tag)
    ensures k > 0 ==> xs[k - 1] in mem && xs[k - 1] != n
    ensures var mem1 := mem[n := QNode(d, First(xs[k..]))];
      var mem' := if k == 0 then mem1 else mem1[xs[k - 1] := mem1[xs[k - 1]].(next := n)];
      && ListOk(mem', own[n := tag], if k == 0 then n else head, xs[..k] + [n] + xs[k..], tag)
      && Datas(mem', xs[..k] + [n] + xs[k..]) == Datas(mem, xs)[..k] + [d] + Datas(mem, xs)[k..]
  {
    NotOnList(mem, own, head, xs, tag, n);
    if k > 0 { assert NodeAt(mem, xs, k - 1); }
    var mem1 := mem[n := QNode(d, First(xs[k..]))];
    var mem' := if k == 0 then mem1 else mem1[xs[k - 1] := mem1[xs[k - 1]].(next := n)];
    forall i: nat | i + 1 < k || k <= i < |xs| ensures SameNode(mem, mem', xs[i]) {}
    LinksReplaced(mem, xs, k, k, [n], mem');
    InsertedOwned(own, xs, k, n, tag);
  }

  lemma InsertedOwned(own: Owner, xs: seq<nat>, k: nat, n: nat, tag: int)
    requires Distinct(xs) && k <= |xs| && n !in xs
    requires forall i :: 0 <= i < |xs| ==> xs[i] in own && own[xs[i]] == tag
    ensures var r := xs[..k] + [n] + xs[k..]; var own' := own[n := tag];
      Distinct(r) && forall i :: 0 <= i < |r| ==> r[i] in own' && own'[r[i]] == tag
  {
    var r := xs[..k] + [n] + xs[k..];
    assert forall i :: 0 <= i < |r| ==> r[i] == if i < k then xs[i] else if i == k then n else xs[i - 1];
  }

  /** Removing the node at position k: its predecessor, or the head, now skips it. */
  lemma ListRemove(mem: Memory, own: Owner, head: nat, xs: seq<nat>, tag: int, k: nat, tag': int)
    requires ListOk(mem, own, head, xs, tag) && k < |xs| && tag' != tag
    ensures xs[k] in mem && (k > 0 ==> xs[k - 1] in mem)
    ensures var mem' := if k == 0 then mem else mem[xs[k - 1] := mem[xs[k - 1]].(next := mem[xs[k]].next)];
      && ListOk(mem', own[xs[k] := tag'], if k == 0 then mem[xs[k]].next else head, xs[..k] + xs[k + 1..], tag)
      && Datas(mem', xs[..k] + xs[k + 1..]) == Datas(mem, xs)[..k] + Datas(mem, xs)[k + 1..]
    ensures mem[xs[k]].next == First(xs[k + 1..])
  {
    assert NodeAt(mem, xs, k);
    if k > 0 { assert NodeAt(mem, xs, k - 1); }
    var mem' := if k == 0 then mem else mem[xs[k - 1] := mem[xs[k - 1]].(next := mem[xs[k]].next)];
    forall i: nat | i + 1 < k || k + 1 <= i < |xs| ensures SameNode(mem, mem', xs[i]) {}
    LinksReplaced(mem, xs, k, k + 1, [], mem');
    assert xs[..k] + [] + xs[k + 1..] == xs[..k] + xs[k + 1..];
    assert Datas(mem, xs)[..k] + [] + Datas(mem, xs)[k + 1..] == Datas(mem, xs)[..k] + Datas(mem, xs)[k + 1..];
    RemovedOwned(own, xs, k, tag, tag');
  }

  lemma RemovedOwned(own: Owner, xs: seq<nat>, k: nat, tag: int, tag': int)
    requires Distinct(xs) && k < |xs|
    requires forall i :: 0 <= i < |xs| ==> xs[i] in own && own[xs[i]] == tag
    ensures var r := xs[..k] + xs[k + 1..]; var own' := own[xs[k] := tag'];
      Distinct(r) && forall i :: 0 <= i < |r| ==> r[i] in own' && own'[r[i]] == tag
  {
    var r := xs[..k] + xs[k + 1..];
    assert forall i :: 0 <= i < |r| ==> r[i] == if i < k then xs[i] else xs[i + 1];
  }

  /** Nodes carved from these pages, each page giving 512. */
  predicate NodeOfPages(pages: seq<nat>, a: nat) { a / QNODES_PER_PAGE in pages && a != 0 }

  function TotalCount(qs: seq<Queue>): nat {
    if qs == [] then 0 else TotalCount(qs[..|qs| - 1]) + qs[|qs| - 1].count
  }

  lemma {:induction false} TotalUpdate(qs: seq<Queue>, i: nat, q: Queue)
    requires i < |qs|
    ensures TotalCount(qs[i := q]) == TotalCount(qs) - qs[i].count + q.count
  {
    var n := |qs| - 1;
    if i == n {
      assert qs[i := q][..n] == qs[..n];
    } else {
      assert qs[i := q][..n] == qs[..n][i := q];
      TotalUpdate(qs[..n], i, q);
    }
  }

  /** Pool of nodes and queues; `chains` and `freeChain` are the nodes of each list in order. */
  ghost predicate ListsOk(mem: Memory, own: Owner, queues: seq<Queue>, chains: seq<seq<nat>>,
                          freeHead: nat, freeChain: seq<nat>) {
    && |queues| == N_QUEUES == |chains|
    && ListOk(mem, own, freeHead, freeChain, FREE)
    && (forall q: nat :: q < N_QUEUES ==> QueueOk(mem, own, queues[q], chains[q], q))
  }

  /** Changing queue i and nodes that only queue i, the free list or the hand owned. */
  lemma ListsChanged(mem: Memory, mem': Memory, own: Owner, own': Owner, queues: seq<Queue>, chains: seq<seq<nat>>,
                     freeHead: nat, freeChain: seq<nat>, freeHead': nat, freeChain': seq<nat>, i: nat, q: Queue,
                     xs: seq<nat>)
    requires ListsOk(mem, own, queues, chains, freeHead, freeChain) && i < N_QUEUES
    requires forall t: nat :: t < N_QUEUES && t != i ==> Untouched(mem, mem', own, own', t)
    requires ListOk(mem', own', freeHead', freeChain', FREE)
    requires QueueOk(mem', own', q, xs, i)
    ensures ListsOk(mem', own', queues[i := q], chains[i := xs], freeHead', freeChain')
    ensures forall t: nat :: t < N_QUEUES && t != i ==> Datas(mem', chains[t]) == Datas(mem, chains[t])
  {
    forall t: nat | t < N_QUEUES && t != i
      ensures QueueOk(mem', own', queues[t], chains[t], t) && Datas(mem', chains[t]) == Datas(mem, chains[t])
    {
      assert QueueOk(mem, own, queues[t], chains[t], t);
      ListKept(mem, mem', own, own', queues[t].head, chains[t], t);
    }
  }

  lemma NodeInPage(page: nat, i: nat)
    requires i < QNODES_PER_PAGE
    ensures (QNODES_PER_PAGE * page + i) / QNODES_PER_PAGE == page
    ensures (QNODES_PER_PAGE * page + i) % QNODES_PER_PAGE == i
  {
  }

  /** The pages bought for nodes are not free any more. */
  ghost predicate Bought(pages: seq<nat>, list: seq<Block>) {
    forall p :: p in pages ==> p !in PageSet(list)
  }

  lemma BoughtAfter(pages: seq<nat>, list: seq<Block>, count: nat)
    requires Sorted(list) && Bought(pages, list) && GrantBase(list, count) != 0
    ensures Bought(pages, AllocList(list, count)) && GrantBase(list, count) !in pages
    ensures GrantBase(list, count) !in PageSet(AllocList(list, count)) && GrantBase(list, count) in PageSet(list)
  {
    AllocPages(list, count);
    SpanStart(GrantBase(list, count), count);
  }

  lemma SpanStart(b: nat, count: nat)
    requires count > 0
    ensures b in Span(b, count)
  {
  }

  /** Memory and queue once node n is linked in at position k. */
  function LinkedMem(mem: Memory, xs: seq<nat>, k: nat, n: nat, d: int): Memory
    requires k <= |xs|
  {
    var mem1 := mem[n := QNode(d, First(xs[k..]))];
    if k == 0 || xs[k - 1] !in mem1 then mem1 else mem1[xs[k - 1] := mem1[xs[k - 1]].(next := n)]
  }

  function LinkedQueue(q: Queue, xs: seq<nat>, k: nat, n: nat): Queue {
    Queue(if k == 0 then n else q.head, if k == |xs| then n else q.tail, q.count + 1, q.order)
  }

  lemma LinkedOk(mem: Memory, own: Owner, queues: seq<Queue>, chains: seq<seq<nat>>, freeHead: nat, freeChain: seq<nat>,
                 i: nat, k: nat, n: nat, d: int)
    requires ListsOk(mem, own, queues, chains, freeHead, freeChain) && i < N_QUEUES && k <= |chains[i]|
    requires n != 0 && n in own && own[n] == HAND
    ensures var xs := chains[i]; var xs' := xs[..k] + [n] + xs[k..]; var mem' := LinkedMem(mem, xs, k, n, d);
      && ListsOk(mem', own[n := i], queues[i := LinkedQueue(queues[i], xs, k, n)], chains[i := xs'],
                 freeHead, freeChain)
      && Datas(mem', xs') == Datas(mem, xs)[..k] + [d] + Datas(mem, xs)[k..]
      && (forall t: nat :: t < N_QUEUES && t != i ==> Datas(mem', chains[t]) == Datas(mem, chains[t]))
  {
    var xs := chains[i];
    assert QueueOk(mem, own, queues[i], xs, i);
    ListInsert(mem, own, queues[i].head, xs, i, k, n, d);
    var mem' := LinkedMem(mem, xs, k, n, d);
    var own' := own[n := i];
    LinkedTouches(mem, own, xs, i, k, n, d);
    ListKept(mem, mem', own, own', freeHead, freeChain, FREE);
    ListsChanged(mem, mem', own, own', queues, chains, freeHead, freeChain, freeHead, freeChain, i,
                 LinkedQueue(queues[i], xs, k, n), xs[..k] + [n] + xs[k..]);
  }

  /** Linking n into list i touches only n and a node of list i. */
  lemma LinkedTouches(mem: Memory, own: Owner, xs: seq<nat>, i: int, k: nat, n: nat, d: int)
    requires k <= |xs| && n in own && own[n] == HAND && i != HAND
    requires forall j :: 0 <= j < |xs| ==> xs[j] in own && own[xs[j]] == i
    ensures var mem', own' := LinkedMem(mem, xs, k, n, d), own[n := i];
      forall t: int :: t != i && t != HAND ==> Untouched(mem, mem', own, own', t)
  {
  }

  // ---- removal ----------------------------------------------------------------------

  function UnlinkedMem(mem: Memory, xs: seq<nat>, k: nat): Memory
    requires k < |xs|
  {
    if k == 0 || xs[k - 1] !in mem || xs[k] !in mem then mem
    else mem[xs[k - 1] := mem[xs[k - 1]].(next := mem[xs[k]].next)]
  }

  function UnlinkedQueue(q: Queue, xs: seq<nat>, k: nat): Queue
    requires k < |xs| && q.count > 0
  {
    Queue(if k == 0 then First(xs[1..]) else q.head,
          if k == |xs| - 1 then (if k == 0 then 0 else xs[k - 1]) else q.tail, q.count - 1, q.order)
  }

  /** What que_remove finds at the head of a queue, and what it leaves. */
  lemma HeadNode(mem: Memory, own: Owner, que: Queue, xs: seq<nat>, q: nat)
    requires QueueOk(mem, own, que, xs, q) && que.count > 0
    ensures xs != [] && que.head == xs[0] != 0 && xs[0] in mem && Datas(mem, xs) != []
    ensures mem[xs[0]].data == Datas(mem, xs)[0] && Datas(mem, xs)[..0] + Datas(mem, xs)[1..] == Datas(mem, xs)[1..]
    ensures var next := mem[xs[0]].next;
      UnlinkedQueue(que, xs, 0) == Queue(next, if next == 0 then 0 else que.tail, que.count - 1, que.order)
  {
    assert NodeAt(mem, xs, 0);
    if |xs| > 1 { assert NodeAt(mem, xs, 1); }
  }

  /** What que_remove_by finds at position k, and what it leaves. */
  lemma InnerNode(mem: Memory, own: Owner, que: Queue, xs: seq<nat>, q: nat, k: nat)
    requires QueueOk(mem, own, que, xs, q) && k < |xs|
    ensures que.count > 0 && xs[k] != 0 && xs[k] in mem && (k > 0 ==> xs[k - 1] != 0 && xs[k - 1] in mem)
    ensures var next := mem[xs[k]].next; var prev := if k == 0 then 0 else xs[k - 1];
      && UnlinkedMem(mem, xs, k) == (if k == 0 then mem else mem[prev := mem[prev].(next := next)])
      && UnlinkedQueue(que, xs, k) ==
         Queue(if k == 0 then next else que.head, if next == 0 then prev else que.tail, que.count - 1, que.order)
  {
    assert NodeAt(mem, xs, k);
    if k > 0 { assert NodeAt(mem, xs, k - 1); }
    if k + 1 < |xs| { assert NodeAt(mem, xs, k + 1); }
  }

  lemma UnlinkedTouches(mem: Memory, own: Owner, xs: seq<nat>, i: int, k: nat)
    requires k < |xs| && i != HAND
    requires forall j :: 0 <= j < |xs| ==> xs[j] in own && own[xs[j]] == i
    ensures var mem', own' := UnlinkedMem(mem, xs, k), own[xs[k] := HAND];
      forall t: int :: t != i && t != HAND ==> Untouched(mem, mem', own, own', t)
  {
  }

  lemma UnlinkedOk(mem: Memory, own: Owner, queues: seq<Queue>, chains: seq<seq<nat>>,
                   freeHead: nat, freeChain: seq<nat>, i: nat, k: nat)
    requires ListsOk(mem, own, queues, chains, freeHead, freeChain) && i < N_QUEUES && k < |chains[i]|
    ensures var xs := chains[i]; var xs' := xs[..k] + xs[k + 1..]; var mem' := UnlinkedMem(mem, xs, k);
      && xs[k] in own && xs[k] != 0 && queues[i].count > 0
      && ListsOk(mem', own[xs[k] := HAND], queues[i := UnlinkedQueue(queues[i], xs, k)], chains[i := xs'],
                 freeHead, freeChain)
      && Datas(mem', xs') == Datas(mem, xs)[..k] + Datas(mem, xs)[k + 1..]
      && (forall t: nat :: t < N_QUEUES && t != i ==> Datas(mem', chains[t]) == Datas(mem, chains[t]))
  {
    var xs := chains[i];
    assert QueueOk(mem, own, queues[i], xs, i);
    assert NodeAt(mem, xs, k);
    ListRemove(mem, own, queues[i].head, xs, i, k, HAND);
    var mem' := UnlinkedMem(mem, xs, k);
    var own' := own[xs[k] := HAND];
    UnlinkedTouches(mem, own, xs, i, k);
    ListKept(mem, mem', own, own', freeHead, freeChain, FREE);
    ListsChanged(mem, mem', own, own', queues, chains, freeHead, freeChain, freeHead, freeChain, i,
                 UnlinkedQueue(queues[i], xs, k), xs[..k] + xs[k + 1..]);
  }

  /** What qnode_alloc does to the pool: a node from the free list, or from a page bought for it. */
  ghost predicate Supplied(ok: bool, f0: nat, list0: seq<Block>, pages0: seq<nat>,
                           f1: nat, list1: seq<Block>, pages1: seq<nat>) {
    if f0 > 0 then ok && f1 == f0 - 1 && list1 == list0 && pages1 == pages0
    else if GrantBase(list0, 1) == 0 then !ok && f1 == 0 && list1 == list0 && pages1 == pages0
    else ok && f1 == QNODES_PER_PAGE - 1 && list1 == AllocList(list0, 1) && pages1 == pages0 + [GrantBase(list0, 1)]
  }

  class QueuePool {
    const km: KMem.KMem
    var mem: Memory
    var freeQnodes: nat
    var queues: seq<Queue>
    var inUse: seq<bool>

    ghost var chains: seq<seq<nat>>
    ghost var freeChain: seq<nat>
    ghost var own: Owner
    ghost var pages: seq<nat>

    /** The pool while a call holds node `hand` (0 for none) off every list and `missing` nodes of
        the newest page have yet to be carved. */
    ghost predicate Valid(hand: nat, missing: nat)
      reads this
    {
      && |inUse| == N_QUEUES
      && ListsOk(mem, own, queues, chains, freeQnodes, freeChain)
      && (forall q: nat :: q < N_QUEUES && !inUse[q] ==> chains[q] == [])
      && (hand != 0 ==> hand in own && own[hand] == HAND)
      && (forall a :: a in own ==> NodeOfPages(pages, a))
      && |freeChain| + TotalCount(queues) + (if hand != 0 then 1 else 0) + missing == QNODES_PER_PAGE * |pages|
    }

    /** The pool between calls: its pages are no longer free. */
    ghost predicate Ready()
      reads this, km
    {
      Valid(0, 0) && Bought(pages, km.list) && km.PagesValid() && km.initialized
    }

    /** The queue as a sequence of data pointers. */
    ghost function Contents(q: nat): seq<int>
      requires q < |chains|
      reads this
    {
      Datas(mem, chains[q])
    }

    /** The statics as que_init leaves them before it adds the first page. */
    constructor (km: KMem.KMem)
      ensures this.km == km && Valid(0, 0) && pages == [] && freeChain == []
      ensures forall q: nat :: q < N_QUEUES ==> Contents(q) == [] && !inUse[q]
    {
      this.km := km;
      mem, freeQnodes := map[], 0;
      var empty := Queue(0, 0, 0, Fifo);
      queues := [empty, empty, empty, empty, empty, empty, empty, empty];
      inUse := [false, false, false, false, false, false, false, false];
      chains, freeChain, own, pages := [[], [], [], [], [], [], [], []], [], map[], [];
      new;
      assert TotalCount([]) == 0;
      AllEmpty(queues);
    }

    /** qnode_free, for a node that is on no list. */
    method QnodeFree(qn: nat, ghost missing: nat)
      requires Valid(qn, missing) && qn != 0
      modifies this`mem, this`freeQnodes, this`freeChain, this`own
      ensures Valid(0, missing) && freeChain == [qn] + old(freeChain)
      ensures own == old(own)[qn := FREE]
      ensures forall q: nat :: q < N_QUEUES ==> Contents(q) == old(Contents(q))
    {
      ListCons(mem, own, freeQnodes, freeChain, FREE, qn, DataOf(mem, qn));
      var d := if qn in mem then mem[qn].data else NIL;
      ListsKept(mem, mem[qn := QNode(d, freeQnodes)], own, own[qn := FREE], queues, chains, freeQnodes, freeChain,
          qn, [qn] + freeChain);
      mem := mem[qn := QNode(d, freeQnodes)];
      own := own[qn := FREE];
      freeQnodes := qn;
      freeChain := [qn] + freeChain;
    }

    /** A node of the newest page comes into being, in the hands of qnode_add_page. */
    ghost method Mint(qn: nat, missing: nat)
      requires Valid(0, missing) && missing > 0 && qn !in own && NodeOfPages(pages, qn)
      modifies this`own
      ensures Valid(qn, missing - 1) && own == old(own)[qn := HAND]
    {
      ListsKept(mem, mem, own, own[qn := HAND], queues, chains, freeQnodes, freeChain, freeQnodes, freeChain);
      own := own[qn := HAND];
    }

    /** The page counts as the pool's from now on. */
    ghost method NewPage(page: nat)
      requires Valid(0, 0) && page !in pages
      modifies this`pages
      ensures Valid(0, QNODES_PER_PAGE) && pages == old(pages) + [page]
      ensures forall a :: a in own ==> a / QNODES_PER_PAGE != page
    {
      assert forall a :: a in own ==> NodeOfPages(pages, a);
      pages := pages + [page];
    }

    /** qnode_add_page: false when there is no page, which the kernel asserts there is. */
    method QnodeAddPage() returns (ok: bool)
      requires Ready()
      modifies this, km
      ensures Ready() && ok == (GrantBase(old(km.list), 1) != 0)
      ensures queues == old(queues) && inUse == old(inUse) && chains == old(chains)
      ensures forall q: nat :: q < N_QUEUES ==> Contents(q) == old(Contents(q))
      ensures ok ==> |freeChain| == |old(freeChain)| + QNODES_PER_PAGE
      ensures ok ==> pages == old(pages) + [GrantBase(old(km.list), 1)]
      ensures ok ==> km.list == AllocList(old(km.list), 1)
      ensures !ok ==> freeChain == old(freeChain) && pages == old(pages) && km.list == old(km.list)
    {
      var page := BuyPage();
      if page == 0 { return false; }
      NewPage(page);
      CarvePage(page);
      return true;
    }

    /** km_page_alloc(1) on behalf of the pool. */
    method BuyPage() returns (page: nat)
      requires km.PagesValid() && km.initialized && Bought(pages, km.list)
      modifies km
      ensures km.PagesValid() && km.initialized && page == GrantBase(old(km.list), 1)
      ensures km.list == AllocList(old(km.list), 1) && Bought(pages, km.list)
      ensures page != 0 ==> page !in pages && Bought(pages + [page], km.list)
    {
      var _, p := km.PageAlloc(1);
      page := p;
      if page != 0 { BoughtAfter(pages, old(km.list), 1); }
    }

    /** The loop of qnode_add_page. */
    method CarvePage(page: nat)
      requires page > 0 && pages != [] && page == pages[|pages| - 1]
      requires Valid(0, QNODES_PER_PAGE) && forall a :: a in own ==> a / QNODES_PER_PAGE != page
      modifies this`mem, this`freeQnodes, this`freeChain, this`own
      ensures Valid(0, 0) && |freeChain| == |old(freeChain)| + QNODES_PER_PAGE
      ensures forall q: nat :: q < N_QUEUES ==> Contents(q) == old(Contents(q))
    {
      var block, i := QNODES_PER_PAGE * page, 0;
      while i < QNODES_PER_PAGE
        invariant i <= QNODES_PER_PAGE && block == QNODES_PER_PAGE * page + i
        invariant Valid(0, QNODES_PER_PAGE - i) && |freeChain| == |old(freeChain)| + i
        invariant forall a :: a in own && a / QNODES_PER_PAGE == page ==> a % QNODES_PER_PAGE < i
        invariant forall q: nat :: q < N_QUEUES ==> Contents(q) == old(Contents(q))
      {
        NodeInPage(page, i);
        Mint(block, QNODES_PER_PAGE - i);
        QnodeFree(block, QNODES_PER_PAGE - i - 1);
        i, block := i + 1, block + 1;
      }
    }

    /** qnode_alloc: buys a page when the free list is empty. */
    method QnodeAlloc() returns (n: nat)
      requires Ready()
      modifies this, km
      ensures Valid(n, 0) && Bought(pages, km.list) && km.PagesValid() && km.initialized
      ensures queues == old(queues) && inUse == old(inUse) && chains == old(chains)
      ensures forall q: nat :: q < N_QUEUES ==> Contents(q) == old(Contents(q))
      ensures n != 0 ==> n in mem && mem[n] == QNode(NIL, 0)
      ensures Supplied(n != 0, |old(freeChain)|, old(km.list), old(pages), |freeChain|, km.list, pages)
    {
      if freeQnodes == 0 {
        NullIfEmpty(mem, own, freeQnodes, freeChain, FREE);
        var ok := QnodeAddPage();
        if !ok { return 0; }
        assert freeChain != [] && NodeAt(mem, freeChain, 0);
      }
      n := TakeFree();
    }

    /** The rest of qnode_alloc. */
    method TakeFree() returns (tmp: nat)
      requires Valid(0, 0) && freeQnodes != 0
      modifies this`mem, this`freeQnodes, this`freeChain, this`own
      ensures Valid(tmp, 0) && tmp != 0 && tmp in mem && mem[tmp] == QNode(NIL, 0)
      ensures |old(freeChain)| > 0 && |freeChain| == |old(freeChain)| - 1
      ensures forall q: nat :: q < N_QUEUES ==> Contents(q) == old(Contents(q))
    {
      tmp := freeQnodes;
      ListTail(mem, mem[tmp := QNode(NIL, 0)], own, freeQnodes, freeChain, FREE, HAND);
      freeQnodes := mem[tmp].next;
      ListsKept(mem, mem[tmp := QNode(NIL, 0)], own, own[tmp := HAND], queues, chains, tmp, freeChain, freeQnodes,
          freeChain[1..]);
      mem := mem[tmp := QNode(NIL, 0)];
      own := own[tmp := HAND];
      freeChain := freeChain[1..];
    }

    /** The effect of linking the node in hand into queue q at position k, for the ghost fields. */
    ghost method Linked(q: nat, k: nat, n: nat, d: int, mem0: Memory, queues0: seq<Queue>)
      requires q < N_QUEUES && n != 0 && |inUse| == N_QUEUES
      requires ListsOk(mem0, own, queues0, chains, freeQnodes, freeChain) && k <= |chains[q]|
      requires n in own && own[n] == HAND && (forall a :: a in own ==> NodeOfPages(pages, a))
      requires |freeChain| + TotalCount(queues0) + 1 == QNODES_PER_PAGE * |pages|
      requires mem == LinkedMem(mem0, chains[q], k, n, d)
      requires queues == queues0[q := LinkedQueue(queues0[q], chains[q], k, n)]
      requires forall j: nat :: j < N_QUEUES && !inUse[j] && j != q ==> chains[j] == []
      requires inUse[q]
      modifies this`chains, this`own
      ensures Valid(0, 0)
      ensures Contents(q) == Datas(mem0, old(chains)[q])[..k] + [d] + Datas(mem0, old(chains)[q])[k..]
      ensures forall t: nat :: t < N_QUEUES && t != q ==> Contents(t) == Datas(mem0, old(chains)[t])
    {
      LinkedOk(mem0, own, queues0, chains, freeQnodes, freeChain, q, k, n, d);
      TotalUpdate(queues0, q, LinkedQueue(queues0[q], chains[q], k, n));
      own := own[n := q];
      chains := chains[q := chains[q][..k] + [n] + chains[q][k..]];
    }

    /** `qn->data = data`, and the link of the new node. */
    method Fill(n: nat, d: int, next: nat)
      requires Valid(n, 0) && n != 0
      modifies this`mem
      ensures mem == old(mem)[n := QNode(d, next)]
    {
      mem := mem[n := QNode(d, next)];
    }

    /** que_insert.  It returns false where the kernel panics because no page is left for nodes. */
    method QueInsert(q: nat, data: int, keys: seq<nat>) returns (ok: bool)
      requires Ready() && q < N_QUEUES && inUse[q]
      modifies this, km
      ensures Ready() && inUse == old(inUse)
      ensures Supplied(ok, |old(freeChain)|, old(km.list), old(pages), |freeChain|, km.list, pages)
      ensures forall t: nat :: t < N_QUEUES ==> queues[t].order == old(queues)[t].order
      ensures forall t: nat :: t < N_QUEUES && (t != q || !ok) ==> Contents(t) == old(Contents(t))
      ensures ok ==> Contents(q) == Insert(old(Contents(q)), data, old(queues)[q].order, keys)
    {
      var qn := QnodeAlloc();
      if qn == 0 { return false; }
      Link(q, qn, data, keys);
      return true;
    }

    /** The new node's place in the queue. */
    method Link(q: nat, qn: nat, data: int, keys: seq<nat>)
      requires Valid(qn, 0) && qn != 0 && q < N_QUEUES && inUse[q]
      modifies this`mem, this`queues, this`chains, this`own
      ensures Valid(0, 0)
      ensures Contents(q) == Insert(old(Contents(q)), data, old(queues)[q].order, keys)
      ensures forall t: nat :: t < N_QUEUES ==> queues[t].order == old(queues)[t].order
      ensures forall t: nat :: t < N_QUEUES && t != q ==> Contents(t) == old(Contents(t))
    {
      if queues[q].count == 0 {
        LinkFirst(q, qn, data);
      } else if queues[q].order == Fifo {
        LinkLast(q, qn, data);
      } else {
        LinkInOrder(q, qn, data, keys);
      }
    }

    /** The new first and last node. */
    method LinkFirst(q: nat, n: nat, d: int)
      requires Valid(n, 0) && n != 0 && q < N_QUEUES && inUse[q] && queues[q].count == 0
      modifies this`mem, this`queues, this`chains, this`own
      ensures Valid(0, 0)
      ensures Contents(q) == [d] && old(Contents(q)) == []
      ensures forall t: nat :: t < N_QUEUES ==> queues[t].order == old(queues)[t].order
      ensures forall t: nat :: t < N_QUEUES && t != q ==> Contents(t) == old(Contents(t))
    {
      assert QueueOk(mem, own, queues[q], chains[q], q);
      ghost var mem0, queues0 := mem, queues;
      Fill(n, d, 0);
      queues := queues[q := queues[q].(head := n, tail := n, count := 1)];
      Linked(q, 0, n, d, mem0, queues0);
    }

    /** Append after the current last node. */
    method LinkLast(q: nat, n: nat, d: int)
      requires Valid(n, 0) && n != 0 && q < N_QUEUES && inUse[q] && queues[q].count > 0
      modifies this`mem, this`queues, this`chains, this`own
      ensures Valid(0, 0)
      ensures Contents(q) == old(Contents(q)) + [d]
      ensures forall t: nat :: t < N_QUEUES ==> queues[t].order == old(queues)[t].order
      ensures forall t: nat :: t < N_QUEUES && t != q ==> Contents(t) == old(Contents(t))
    {
      ghost var k := |chains[q]|;
      assert QueueOk(mem, own, queues[q], chains[q], q);
      assert NodeAt(mem, chains[q], k - 1);
      ghost var mem0, queues0 := mem, queues;
      assert chains[q][k..] == [];
      Fill(n, d, 0);
      var tail := queues[q].tail;
      mem := mem[tail := mem[tail].(next := n)];
      queues := queues[q := queues[q].(tail := n, count := queues[q].count + 1)];
      Linked(q, k, n, d, mem0, queues0);
    }

    /** Hand-over-hand traversal to the first entry that must come after the new one. */
    method FindPlace(q: nat, d: int, keys: seq<nat>, ghost skip: nat) returns (prev: nat, curr: nat)
      requires Valid(skip, 0) && q < N_QUEUES
      ensures var k := InsertPos(Contents(q), d, keys);
        curr == First(chains[q][k..]) && prev == (if k == 0 then 0 else chains[q][k - 1])
    {
      prev, curr := 0, queues[q].head;
      ghost var k, xs := 0, chains[q];
      assert QueueOk(mem, own, queues[q], xs, q);
      while curr != 0 && CompWakeup(KeyOf(keys, d), KeyOf(keys, mem[curr].data)) >= 0
        invariant k <= |xs| && curr == First(xs[k..]) && prev == (if k == 0 then 0 else xs[k - 1])
        invariant k < |xs| ==> NodeAt(mem, xs, k)
        invariant forall i :: 0 <= i < k ==> CompWakeup(KeyOf(keys, d), KeyOf(keys, Datas(mem, xs)[i])) >= 0
        decreases |xs| - k
      {
        assert k + 1 < |xs| ==> NodeAt(mem, xs, k + 1);
        prev, curr := curr, mem[curr].next;
        k := k + 1;
      }
      InsertPosIs(Datas(mem, xs), d, keys, k);
    }

    /** Ordered insertion. */
    method LinkInOrder(q: nat, n: nat, d: int, keys: seq<nat>)
      requires Valid(n, 0) && n != 0 && q < N_QUEUES && inUse[q] && queues[q].count > 0
      modifies this`mem, this`queues, this`chains, this`own
      ensures Valid(0, 0)
      ensures Contents(q) == Insert(old(Contents(q)), d, ByWakeup, keys)
      ensures forall t: nat :: t < N_QUEUES ==> queues[t].order == old(queues)[t].order
      ensures forall t: nat :: t < N_QUEUES && t != q ==> Contents(t) == old(Contents(t))
    {
      var prev, curr := FindPlace(q, d, keys, n);
      ghost var k, xs := InsertPos(Contents(q), d, keys), chains[q];
      LinkBetween(q, n, d, prev, curr, k);
    }

    /** Link the node between `prev` and `curr`; a NULL prev means a new head, a NULL curr a new tail. */
    method LinkBetween(q: nat, n: nat, d: int, prev: nat, curr: nat, ghost k: nat)
      requires Valid(n, 0) && n != 0 && q < N_QUEUES && inUse[q] && queues[q].count > 0
      requires k <= |chains[q]| && curr == First(chains[q][k..]) && prev == (if k == 0 then 0 else chains[q][k - 1])
      modifies this`mem, this`queues, this`chains, this`own
      ensures Valid(0, 0)
      ensures Contents(q) == old(Contents(q))[..k] + [d] + old(Contents(q))[k..]
      ensures forall t: nat :: t < N_QUEUES ==> queues[t].order == old(queues)[t].order
      ensures forall t: nat :: t < N_QUEUES && t != q ==> Contents(t) == old(Contents(t))
    {
      ghost var xs := chains[q];
      assert QueueOk(mem, own, queues[q], xs, q);
      assert k > 0 ==> NodeAt(mem, xs, k - 1);
      assert k < |xs| ==> NodeAt(mem, xs, k);
      ghost var mem0, queues0 := mem, queues;
      Fill(n, d, curr);
      var que := queues[q];
      if prev == 0 {
        que := que.(head := n);
      } else {
        mem := mem[prev := mem[prev].(next := n)];
        if curr == 0 { que := que.(tail := n); }
      }
      queues := queues[q := que.(count := que.count + 1)];
      Linked(q, k, n, d, mem0, queues0);
    }

    /** que_alloc: the first queue not in use, empty, with this order; none when all are taken. */
    method QueAlloc(order: Order) returns (r: Option<nat>)
      requires Valid(0, 0)
      modifies this`queues, this`inUse
      ensures Valid(0, 0)
      ensures r == None <==> forall i: nat :: i < N_QUEUES ==> old(inUse)[i]
      ensures r == None ==> queues == old(queues) && inUse == old(inUse)
      ensures r != None ==> var q := r.value;
        && q < N_QUEUES && !old(inUse)[q] && (forall i: nat :: i < q ==> old(inUse)[i])
        && inUse == old(inUse)[q := true] && queues[q].order == order && Contents(q) == []
        && (forall t: nat :: t < N_QUEUES && t != q ==> queues[t] == old(queues)[t])
      ensures forall t: nat :: t < N_QUEUES ==> Contents(t) == old(Contents(t))
    {
      var i := 0;
      while i < N_QUEUES && inUse[i]
        invariant i <= N_QUEUES && forall j: nat :: j < i ==> inUse[j]
      {
        i := i + 1;
      }
      if i >= N_QUEUES { return None; }
      assert QueueOk(mem, own, queues[i], chains[i], i);
      TotalUpdate(queues, i, Queue(0, 0, 0, order));
      ListsChanged(mem, mem, own, own, queues, chains, freeQnodes, freeChain, freeQnodes, freeChain, i,
          Queue(0, 0, 0, order), chains[i]);
      assert chains[i := chains[i]] == chains;
      inUse := inUse[i := true];
      queues := queues[i := Queue(0, 0, 0, order)];
      return Some(i);
    }

    /** que_peek */
    method QuePeek(q: nat, wanted: bool) returns (code: Ecode, data: int)
      requires Valid(0, 0) && q < N_QUEUES
      ensures code == if !wanted then E_BAD_PARAM else if Contents(q) == [] then E_EMPTY else E_SUCCESS
      ensures code == E_SUCCESS ==> data == Contents(q)[0]
    {
      if !wanted { return E_BAD_PARAM, NIL; }
      assert QueueOk(mem, own, queues[q], chains[q], q);
      if queues[q].count < 1 { return E_EMPTY, NIL; }
      assert NodeAt(mem, chains[q], 0);
      return E_SUCCESS, mem[queues[q].head].data;
    }

    /** The effect of unlinking the node at position k of queue q, for the ghost fields. */
    ghost method Unlinked(q: nat, k: nat, mem0: Memory, queues0: seq<Queue>)
      requires q < N_QUEUES && |inUse| == N_QUEUES
      requires ListsOk(mem0, own, queues0, chains, freeQnodes, freeChain) && k < |chains[q]| && queues0[q].count > 0
      requires forall a :: a in own ==> NodeOfPages(pages, a)
      requires |freeChain| + TotalCount(queues0) == QNODES_PER_PAGE * |pages|
      requires mem == UnlinkedMem(mem0, chains[q], k)
      requires queues == queues0[q := UnlinkedQueue(queues0[q], chains[q], k)]
      requires forall j: nat :: j < N_QUEUES && !inUse[j] ==> chains[j] == []
      modifies this`chains, this`own
      ensures Valid(old(chains)[q][k], 0) && old(chains)[q][k] != 0
      ensures Contents(q) == Datas(mem0, old(chains)[q])[..k] + Datas(mem0, old(chains)[q])[k + 1..]
      ensures forall t: nat :: t < N_QUEUES && t != q ==> Contents(t) == Datas(mem0, old(chains)[t])
    {
      UnlinkedOk(mem0, own, queues0, chains, freeQnodes, freeChain, q, k);
      TotalUpdate(queues0, q, UnlinkedQueue(queues0[q], chains[q], k));
      own := own[chains[q][k] := HAND];
      chains := chains[q := chains[q][..k] + chains[q][k + 1..]];
    }

    /** que_remove */
    method QueRemove(q: nat, wanted: bool) returns (code: Ecode, data: int)
      requires Valid(0, 0) && q < N_QUEUES
      modifies this`mem, this`freeQnodes, this`queues, this`chains, this`freeChain, this`own
      ensures Valid(0, 0)
      ensures code == (if !wanted then E_BAD_PARAM else if old(Contents(q)) == [] then E_EMPTY else E_SUCCESS)
      ensures code != E_SUCCESS ==> Contents(q) == old(Contents(q)) && |freeChain| == |old(freeChain)|
      ensures code == E_SUCCESS ==>
                data == old(Contents(q))[0] && Contents(q) == old(Contents(q))[1..]
      ensures code == E_SUCCESS ==> |freeChain| == |old(freeChain)| + 1
      ensures forall t: nat :: t < N_QUEUES ==> queues[t].order == old(queues)[t].order
      ensures forall t: nat :: t < N_QUEUES && t != q ==> Contents(t) == old(Contents(t))
    {
      if !wanted { return E_BAD_PARAM, NIL; }
      if queues[q].count < 1 {
        assert QueueOk(mem, own, queues[q], chains[q], q);
        return E_EMPTY, NIL;
      }
      var qn, d := UnlinkHead(q);
      QnodeFree(qn, 0);
      return E_SUCCESS, d;
    }

    /** The second node becomes the head. */
    method UnlinkHead(q: nat) returns (qn: nat, data: int)
      requires Valid(0, 0) && q < N_QUEUES && queues[q].count > 0
      modifies this`queues, this`chains, this`own
      ensures qn != 0 && Valid(qn, 0)
      ensures old(Contents(q)) != [] && data == old(Contents(q))[0] && Contents(q) == old(Contents(q))[1..]
      ensures forall t: nat :: t < N_QUEUES ==> queues[t].order == old(queues)[t].order
      ensures forall t: nat :: t < N_QUEUES && t != q ==> Contents(t) == old(Contents(t))
    {
      ghost var xs, queues0 := chains[q], queues;
      assert QueueOk(mem, own, queues[q], xs, q);
      HeadNode(mem, own, queues[q], xs, q);
      qn := queues[q].head;
      data := mem[qn].data;
      var que := queues[q].(head := mem[qn].next);
      if que.head == 0 { que := que.(tail := 0); }
      queues := queues[q := que.(count := que.count - 1)];
      Unlinked(q, 0, mem, queues0);
    }

    /** que_remove_by: takes out the first entry with this data. */
    method QueRemoveBy(q: nat, data: int) returns (code: Ecode)
      requires Valid(0, 0) && q < N_QUEUES
      modifies this`mem, this`freeQnodes, this`queues, this`chains, this`freeChain, this`own
      ensures Valid(0, 0)
      ensures code == (if data == NIL then E_BAD_PARAM else if old(Contents(q)) == [] then E_EMPTY
                       else if data in old(Contents(q)) then E_SUCCESS else E_NOT_FOUND)
      ensures Contents(q) == (if code == E_SUCCESS then RemoveFirst(old(Contents(q)), data) else old(Contents(q)))
      ensures |freeChain| == |old(freeChain)| + (if code == E_SUCCESS then 1 else 0)
      ensures forall t: nat :: t < N_QUEUES ==> queues[t].order == old(queues)[t].order
      ensures forall t: nat :: t < N_QUEUES && t != q ==> Contents(t) == old(Contents(t))
    {
      if data == NIL { return E_BAD_PARAM; }
      if queues[q].count < 1 {
        assert QueueOk(mem, own, queues[q], chains[q], q);
        return E_EMPTY;
      }
      ghost var k;
      var prev, curr;
      prev, curr, k := FindData(q, data);
      if curr == 0 { return E_NOT_FOUND; }
      FirstMatch(Contents(q), data, k);
      UnlinkAt(q, prev, curr, k);
      QnodeFree(curr, 0);
      return E_SUCCESS;
    }

    /** Hand-over-hand traversal to the first node holding this data. */
    method FindData(q: nat, data: int) returns (prev: nat, curr: nat, ghost k: nat)
      requires Valid(0, 0) && q < N_QUEUES && queues[q].count > 0
      ensures Contents(q) != []
      ensures k <= |chains[q]| && curr == First(chains[q][k..]) && prev == (if k == 0 then 0 else chains[q][k - 1])
      ensures data !in Contents(q)[..k] && (curr == 0 <==> k == |chains[q]|)
      ensures curr != 0 ==> Contents(q)[k] == data
    {
      ghost var xs := chains[q];
      assert QueueOk(mem, own, queues[q], xs, q);
      prev, curr, k := 0, queues[q].head, 0;
      assert NodeAt(mem, xs, 0);
      while curr != 0 && data != mem[curr].data
        invariant k <= |xs| && curr == First(xs[k..]) && prev == (if k == 0 then 0 else xs[k - 1])
        invariant k < |xs| ==> NodeAt(mem, xs, k)
        invariant data !in Datas(mem, xs)[..k]
        decreases |xs| - k
      {
        assert k + 1 < |xs| ==> NodeAt(mem, xs, k + 1);
        assert Datas(mem, xs)[..k + 1] == Datas(mem, xs)[..k] + [mem[curr].data];
        prev, curr := curr, mem[curr].next;
        k := k + 1;
      }
    }

    /** The predecessor, or the head, now points past the node; the tail moves back if it was last. */
    method UnlinkAt(q: nat, prev: nat, curr: nat, ghost k: nat)
      requires Valid(0, 0) && q < N_QUEUES && k < |chains[q]|
      requires curr == chains[q][k] && prev == (if k == 0 then 0 else chains[q][k - 1])
      modifies this`mem, this`queues, this`chains, this`own
      ensures curr != 0 && Valid(curr, 0)
      ensures Contents(q) == old(Contents(q))[..k] + old(Contents(q))[k + 1..]
      ensures forall t: nat :: t < N_QUEUES ==> queues[t].order == old(queues)[t].order
      ensures forall t: nat :: t < N_QUEUES && t != q ==> Contents(t) == old(Contents(t))
    {
      ghost var xs, queues0, mem0 := chains[q], queues, mem;
      assert QueueOk(mem, own, queues[q], xs, q);
      InnerNode(mem, own, queues[q], xs, q, k);
      var que := queues[q];
      var next := mem[curr].next;
      if prev == 0 {
        que := que.(head := next);
      } else {
        mem := mem[prev := mem[prev].(next := next)];
      }
      if next == 0 { que := que.(tail := prev); }
      queues := queues[q := que.(count := que.count - 1)];
      Unlinked(q, k, mem0, queues0);
    }
  }

  lemma {:induction false} FirstMatch(q: seq<int>, x: int, k: nat)
    requires k < |q| && q[k] == x && x !in q[..k]
    ensures x in q && RemoveFirst(q, x) == q[..k] + q[k + 1..]
  {
    if k > 0 {
      var t := q[1..];
      assert q[0] == q[..k][0];
      assert t[..k - 1] == q[..k][1..];
      FirstMatch(t, x, k - 1);
      assert t[k..] == q[k + 1..];
    }
  }

  lemma {:induction false} InsertPosIs(q: seq<int>, x: int, keys: seq<nat>, k: nat)
    requires k <= |q| && forall i :: 0 <= i < k ==> CompWakeup(KeyOf(keys, x), KeyOf(keys, q[i])) >= 0
    requires k < |q| ==> CompWakeup(KeyOf(keys, x), KeyOf(keys, q[k])) < 0
    ensures InsertPos(q, x, keys) == k
  {
    if k > 0 { InsertPosIs(q[1..], x, keys, k - 1); }
  }

  lemma AllEmpty(qs: seq<Queue>)
    requires |qs| == 8 && forall i :: 0 <= i < 8 ==> qs[i].count == 0
    ensures TotalCount(qs) == 0
  {
    assert qs[..7][..6] == qs[..6] && qs[..6][..5] == qs[..5] && qs[..5][..4] == qs[..4];
    assert qs[..4][..3] == qs[..3] && qs[..3][..2] == qs[..2] && qs[..2][..1] == qs[..1];
    assert TotalCount(qs[..1]) == 0;
    assert TotalCount(qs[..2]) == 0;
    assert TotalCount(qs[..3]) == 0;
    assert TotalCount(qs[..4]) == 0;
    assert TotalCount(qs[..5]) == 0;
    assert TotalCount(qs[..6]) == 0;
    assert TotalCount(qs[..7]) == 0;
  }

  lemma ListsKept(mem: Memory, mem': Memory, own: Owner, own': Owner, queues: seq<Queue>, chains: seq<seq<nat>>,
                  freeHead: nat, freeChain: seq<nat>, freeHead': nat, freeChain': seq<nat>)
    requires ListsOk(mem, own, queues, chains, freeHead, freeChain)
    requires forall t: nat :: t < N_QUEUES ==> Untouched(mem, mem', own, own', t)
    requires ListOk(mem', own', freeHead', freeChain', FREE)
    ensures ListsOk(mem', own', queues, chains, freeHead', freeChain')
    ensures forall t: nat :: t < N_QUEUES ==> Datas(mem', chains[t]) == Datas(mem, chains[t])
  {
    forall t: nat | t < N_QUEUES
      ensures QueueOk(mem', own', queues[t], chains[t], t) && Datas(mem', chains[t]) == Datas(mem, chains[t])
    {
      assert QueueOk(mem, own, queues[t], chains[t], t);
      ListKept(mem, mem', own, own', queues[t].head, chains[t], t);
    }
  }
}
