/**
 What the queues of kernel/queues.c mean: a queue is the sequence of its data
 pointers.  NULL is written NIL.  Queues.dfy proves the linked code against these
 functions, and the process model uses them as its queue operations.
 */
module QueueSpec {
  /** Queue nodes are bought a page at a time. */
  const QNODES_PER_PAGE: nat := 512

  const NIL: int := -1

  /** How a queue orders its entries: not at all, or by comp_wakeup. */
  datatype Order = Fifo | ByWakeup

  /** comp_wakeup: compares the wakeup times of two PCBs. */
  function CompWakeup(w1: nat, w2: nat): (r: int)
    ensures r < 0 <==> w1 < w2
    ensures r == 0 <==> w1 == w2
  {
    if w1 < w2 then -1 else if w1 == w2 then 0 else 1
  }

  /** Wakeup time of the PCB a data pointer designates. */
  function KeyOf(keys: seq<nat>, x: int): nat {
    if 0 <= x < |keys| then keys[x] else 0
  }

  /** Number of leading entries that x does not precede. */
  function InsertPos(q: seq<int>, x: int, keys: seq<nat>): (k: nat)
    ensures k <= |q|
  {
    if q == [] || CompWakeup(KeyOf(keys, x), KeyOf(keys, q[0])) < 0 then 0
    else 1 + InsertPos(q[1..], x, keys)
  }

  /** que_insert */
  function Insert(q: seq<int>, x: int, order: Order, keys: seq<nat>): seq<int> {
    match order
    case Fifo => q + [x]
    case ByWakeup => var k := InsertPos(q, x, keys); q[..k] + [x] + q[k..]
  }

  /** que_remove_by, when x occurs */
  function RemoveFirst(q: seq<int>, x: int): seq<int> {
    if q == [] then [] else if q[0] == x then q[1..] else [q[0]] + RemoveFirst(q[1..], x)
  }

  function Occ(q: seq<int>, x: int): nat { multiset(q)[x] }

  ghost predicate SortedBy(q: seq<int>, keys: seq<nat>) {
    forall i, j :: 0 <= i < j < |q| ==> KeyOf(keys, q[i]) <= KeyOf(keys, q[j])
  }

  // ---- insertion ---------------------------------------------------------------

  lemma {:induction false} InsertPosSplits(q: seq<int>, x: int, keys: seq<nat>)
    requires SortedBy(q, keys)
    ensures var k := InsertPos(q, x, keys);
      && (forall i :: 0 <= i < k ==> KeyOf(keys, q[i]) <= KeyOf(keys, x))
      && (forall i :: k <= i < |q| ==> KeyOf(keys, x) < KeyOf(keys, q[i]))
  {
    var k := InsertPos(q, x, keys);
    if k > 0 {
      InsertPosSplits(q[1..], x, keys);
      forall i | 1 <= i < |q| ensures q[i] == q[1..][i - 1] {}
    }
  }

  /** Ordered insertion is stable and keeps the queue sorted: x lands after every entry that
      is due no later, before every entry that is due later, and nothing else moves. */
  lemma InsertStable(q: seq<int>, x: int, keys: seq<nat>)
    requires SortedBy(q, keys)
    ensures var r := Insert(q, x, ByWakeup, keys);
      && SortedBy(r, keys)
      && exists k :: 0 <= k <= |q| && r == q[..k] + [x] + q[k..]
           && (forall i :: 0 <= i < k ==> KeyOf(keys, q[i]) <= KeyOf(keys, x))
           && (forall i :: k <= i < |q| ==> KeyOf(keys, x) < KeyOf(keys, q[i]))
  {
    InsertPosSplits(q, x, keys);
    var k := InsertPos(q, x, keys);
    var r := q[..k] + [x] + q[k..];
    assert forall i :: 0 <= i < |r| ==> r[i] == if i < k then q[i] else if i == k then x else q[i - 1];
  }

  lemma InsertOcc(q: seq<int>, x: int, order: Order, keys: seq<nat>, p: int)
    ensures Occ(Insert(q, x, order, keys), p) == Occ(q, p) + (if p == x then 1 else 0)
    ensures |Insert(q, x, order, keys)| == |q| + 1
  {
    if order == ByWakeup {
      var k := InsertPos(q, x, keys);
      assert q == q[..k] + q[k..];
    }
  }

  // ---- removal -----------------------------------------------------------------

  lemma HeadOcc(q: seq<int>, p: int)
    requires q != []
    ensures Occ(q[1..], p) == Occ(q, p) - (if p == q[0] then 1 else 0)
    ensures Occ(q, q[0]) > 0
  {
    assert q == [q[0]] + q[1..];
  }

  lemma OccIn(q: seq<int>, p: int)
    ensures Occ(q, p) > 0 <==> p in q
  {
  }

  /** First-match removal takes out exactly one occurrence, the first. */
  lemma {:induction false} RemoveFirstSplits(q: seq<int>, x: int) returns (k: nat)
    requires x in q
    ensures k < |q| && q[k] == x && x !in q[..k]
    ensures RemoveFirst(q, x) == q[..k] + q[k + 1..]
  {
    if q[0] == x {
      k := 0;
    } else {
      var t := q[1..];
      k := RemoveFirstSplits(t, x);
      k := k + 1;
      assert q[..k] == [q[0]] + t[..k - 1];
      assert t[k..] == q[k + 1..];
    }
  }

  lemma RemoveFirstOcc(q: seq<int>, x: int, p: int)
    requires x in q
    ensures Occ(RemoveFirst(q, x), p) == Occ(q, p) - (if p == x then 1 else 0)
    ensures |RemoveFirst(q, x)| == |q| - 1
  {
    var k := RemoveFirstSplits(q, x);
    assert q == q[..k] + [x] + q[k + 1..];
  }
}
