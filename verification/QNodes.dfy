/**
 Linked queue nodes as values: what it takes for the `next` fields in memory to spell out
 a sequence of nodes, and how inserting, removing and relinking change that sequence.
 A node address is 512 * page + index; 0 is NULL.
 */
module QNodes {
  import opened QueueSpec

  /** qnode_t */
  datatype QNode = QNode(data: int, next: nat)

  type Memory = map<nat, QNode>

  function First(xs: seq<nat>): nat { if xs == [] then 0 else xs[0] }

  function Last(xs: seq<nat>): nat { if xs == [] then 0 else xs[|xs| - 1] }

  ghost predicate NodeAt(mem: Memory, xs: seq<nat>, i: nat)
    requires i < |xs|
  {
    xs[i] != 0 && xs[i] in mem && mem[xs[i]].next == (if i + 1 < |xs| then xs[i + 1] else 0)
  }

  /** Starting at the first node, `next` visits exactly the nodes of xs. */
  ghost predicate Links(mem: Memory, xs: seq<nat>) {
    forall i: nat :: i < |xs| ==> NodeAt(mem, xs, i)
  }

  function DataOf(mem: Memory, a: nat): int { if a in mem then mem[a].data else NIL }

  function Datas(mem: Memory, xs: seq<nat>): (r: seq<int>)
    ensures |r| == |xs| && forall i :: 0 <= i < |xs| ==> r[i] == DataOf(mem, xs[i])
  {
    seq(|xs|, i requires 0 <= i < |xs| => DataOf(mem, xs[i]))
  }

  ghost predicate SameNode(mem: Memory, mem': Memory, a: nat) {
    a in mem ==> a in mem' && mem'[a] == mem[a]
  }

  /** Writes outside xs do not matter to xs. */
  lemma LinksFrame(mem: Memory, mem': Memory, xs: seq<nat>)
    requires Links(mem, xs) && forall i :: 0 <= i < |xs| ==> SameNode(mem, mem', xs[i])
    ensures Links(mem', xs) && Datas(mem', xs) == Datas(mem, xs)
  {
    forall i: nat | i < |xs| ensures NodeAt(mem', xs, i) && DataOf(mem', xs[i]) == DataOf(mem, xs[i]) {
      assert NodeAt(mem, xs, i);
    }
  }

  /** Replacing xs[a..b] by `mid` is a matter of the link before it and of mid's own link. */
  lemma LinksReplaced(mem: Memory, xs: seq<nat>, a: nat, b: nat, mid: seq<nat>, mem': Memory)
    requires Links(mem, xs) && a <= b <= |xs| && |mid| <= 1
    requires forall i: nat :: i + 1 < a || b <= i < |xs| ==> SameNode(mem, mem', xs[i])
    requires var next := if mid == [] then First(xs[b..]) else mid[0];
      a > 0 ==> xs[a - 1] in mem' && mem'[xs[a - 1]].next == next && mem'[xs[a - 1]].data == DataOf(mem, xs[a - 1])
    requires mid != [] ==> mid[0] != 0 && mid[0] in mem' && mem'[mid[0]].next == First(xs[b..])
    ensures Links(mem', xs[..a] + mid + xs[b..])
    ensures Datas(mem', xs[..a] + mid + xs[b..]) ==
            Datas(mem, xs)[..a] + (if mid == [] then [] else [DataOf(mem', mid[0])]) + Datas(mem, xs)[b..]
  {
    var r := xs[..a] + mid + xs[b..];
    var m := |mid|;
    forall i: nat | i < |r| ensures NodeAt(mem', r, i) {
      if i + 1 < a {
        assert NodeAt(mem, xs, i) && SameNode(mem, mem', xs[i]);
      } else if i >= a + m {
        var o := b + i - a - m;
        assert NodeAt(mem, xs, o) && SameNode(mem, mem', xs[o]);
        assert r[i] == xs[o];
      } else if i + 1 == a {
        assert NodeAt(mem, xs, i);
      }
    }
    DatasReplaced(mem, xs, a, b, mid, mem');
  }

  lemma DatasReplaced(mem: Memory, xs: seq<nat>, a: nat, b: nat, mid: seq<nat>, mem': Memory)
    requires Links(mem, xs) && a <= b <= |xs| && |mid| <= 1
    requires forall i: nat :: i + 1 < a || b <= i < |xs| ==> SameNode(mem, mem', xs[i])
    requires a > 0 ==> xs[a - 1] in mem' && mem'[xs[a - 1]].data == DataOf(mem, xs[a - 1])
    ensures Datas(mem', xs[..a] + mid + xs[b..]) ==
            Datas(mem, xs)[..a] + (if mid == [] then [] else [DataOf(mem', mid[0])]) + Datas(mem, xs)[b..]
  {
    var r := xs[..a] + mid + xs[b..];
    var ds := Datas(mem, xs)[..a] + (if mid == [] then [] else [DataOf(mem', mid[0])]) + Datas(mem, xs)[b..];
    forall i: nat | i < |r| ensures DataOf(mem', r[i]) == ds[i] {
      if i < a {
        assert NodeAt(mem, xs, i);
        assert i + 1 < a ==> SameNode(mem, mem', xs[i]);
      } else if i >= a + |mid| {
        var o := b + i - a - |mid|;
        assert NodeAt(mem, xs, o) && SameNode(mem, mem', xs[o]);
      }
    }
  }
}
