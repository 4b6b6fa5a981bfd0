/**
 Parents and children.  Family: the parent pointers of live PCBs form a tree rooted
 at init, and no inner node is a zombie.  Attended: whoever waits has a child, and
 none of its children is already dead, so no wake-up has been lost.
 */
module ProcFamily {
  import opened ProcSpec

  /** Depth strictly grows from parent to child, so following parents must end at init. */
  ghost predicate Kin(pt: seq<Pcb>, init: int, rank: seq<nat>, p: int)
    requires |rank| == |pt|
  {
    Live(pt, p) && p != init ==>
      var q := pt[p].parent;
      Live(pt, q) && pt[q].state != Zombie && rank[q] < rank[p]
  }

  ghost predicate Tree(pt: seq<Pcb>, init: int, rank: seq<nat>) {
    && |rank| == |pt| && Live(pt, init) && pt[init].state != Zombie && pt[init].parent == init
    && rank[init] == 0 && (forall i :: 0 <= i < |rank| && i != init ==> rank[i] > 0)
    && forall p: int :: Kin(pt, init, rank, p)
  }

  ghost predicate Family(pt: seq<Pcb>, init: int) {
    exists rank: seq<nat> :: Tree(pt, init, rank)
  }

  ghost predicate NoKids(pt: seq<Pcb>, p: int) {
    forall c: int :: !ChildOf(pt, c, p)
  }

  ghost predicate DeadChild(pt: seq<Pcb>, c: int, p: int) {
    ChildOf(pt, c, p) && pt[c].state == Zombie
  }

  ghost predicate NoDeadKids(pt: seq<Pcb>, p: int) {
    forall c: int :: !DeadChild(pt, c, p)
  }

  ghost predicate HasKid(pt: seq<Pcb>, p: int) {
    exists c: int :: ChildOf(pt, c, p)
  }

  /** If p waits, it waits for a child that has not died yet. */
  ghost predicate Attended(pt: seq<Pcb>, p: int) {
    IsIn(pt, p, Waiting) ==> HasKid(pt, p) && NoDeadKids(pt, p)
  }

  ghost predicate NoLostWakeup(pt: seq<Pcb>) {
    forall p: int :: Attended(pt, p)
  }

  // ---- the tree -------------------------------------------------------------------

  /** A state change at x, whose parent stays, keeps the tree when x may be an inner node
      afterwards or has no children. */
  lemma TreeState(pt: seq<Pcb>, init: int, rank: seq<nat>, x: int, c: Pcb)
    requires Tree(pt, init, rank) && Live(pt, x) && c.parent == pt[x].parent
    requires c.state == Unused || c.state == Zombie ==> x != init && NoKids(pt, x)
    ensures Tree(pt[x := c], init, rank)
  {
    var pt' := pt[x := c];
    forall p: int ensures Kin(pt', init, rank, p) {
      assert Kin(pt, init, rank, p);
      assert Kin(pt, init, rank, x);
      assert !ChildOf(pt, p, x) || (c.state != Unused && c.state != Zombie);
    }
  }

  /** fork(): a fresh leaf below p. */
  lemma TreeFork(pt: seq<Pcb>, init: int, rank: seq<nat>, n: int, c: Pcb)
    requires Tree(pt, init, rank) && Slot(pt, n) && !Live(pt, n)
    requires Live(pt, c.parent) && pt[c.parent].state != Zombie && c.state != Unused
    ensures Tree(pt[n := c], init, rank[n := rank[c.parent] + 1])
  {
    var pt', rank' := pt[n := c], rank[n := rank[c.parent] + 1];
    forall p: int ensures Kin(pt', init, rank', p) {
      assert Kin(pt, init, rank, p);
    }
  }

  /** Reparenting: the children of p move up to init. */
  lemma TreeAdopt(pt: seq<Pcb>, init: int, rank: seq<nat>, p: int)
    requires Tree(pt, init, rank) && p != init
    ensures Tree(Adopt(pt, p, init), init, rank)
    ensures NoKids(Adopt(pt, p, init), p)
  {
    var pt' := Adopt(pt, p, init);
    forall c: int ensures Kin(pt', init, rank, c) {
      assert Kin(pt, init, rank, c);
    }
    forall c: int ensures !ChildOf(pt', c, p) {
      assert ChildOf(pt, c, p) || !ChildOf(pt, c, p);
    }
  }

  /** The walk along parent pointers. */
  function Ancestor(pt: seq<Pcb>, p: int, k: nat): int
    decreases k
  {
    if k == 0 || !Slot(pt, p) then p else Ancestor(pt, pt[p].parent, k - 1)
  }

  /** From every live process the walk along parent pointers reaches init. */
  lemma {:induction false} ReachesInit(pt: seq<Pcb>, init: int, rank: seq<nat>, p: int) returns (k: nat)
    requires Tree(pt, init, rank) && Live(pt, p)
    ensures Ancestor(pt, p, k) == init
    decreases rank[p]
  {
    if p == init {
      k := 0;
    } else {
      assert Kin(pt, init, rank, p);
      k := ReachesInit(pt, init, rank, pt[p].parent);
      k := k + 1;
    }
  }

  lemma FamilyReachesInit(pt: seq<Pcb>, init: int, p: int)
    requires Family(pt, init) && Live(pt, p)
    ensures exists k: nat :: Ancestor(pt, p, k) == init
    ensures p != init ==> Live(pt, pt[p].parent) && pt[pt[p].parent].state != Zombie && pt[p].parent != p
  {
    var rank :| Tree(pt, init, rank);
    var k := ReachesInit(pt, init, rank, p);
    assert Kin(pt, init, rank, p);
  }

  // ---- waiting --------------------------------------------------------------------

  /** A change at x that keeps its parent pointer.  The parent of x must not be waiting,
      unless x stays a living child. */
  lemma AttendedState(pt: seq<Pcb>, x: int, c: Pcb, p: int)
    requires Attended(pt, p) && Live(pt, x) && c.parent == pt[x].parent
    requires p != x
    requires c.state == Unused || c.state == Zombie ==> !(IsIn(pt, p, Waiting) && pt[x].parent == p)
    ensures Attended(pt[x := c], p)
  {
    var pt' := pt[x := c];
    if IsIn(pt', p, Waiting) {
      var k: int :| ChildOf(pt, k, p);
      assert ChildOf(pt', k, p);
      forall d: int ensures !DeadChild(pt', d, p) { assert !DeadChild(pt, d, p); }
    }
  }

  lemma NoLostState(pt: seq<Pcb>, x: int, c: Pcb)
    requires NoLostWakeup(pt) && Live(pt, x) && c.parent == pt[x].parent && c.state != Waiting
    requires c.state == Unused || c.state == Zombie ==> !IsIn(pt, pt[x].parent, Waiting)
    ensures NoLostWakeup(pt[x := c])
  {
    var pt' := pt[x := c];
    forall p: int ensures Attended(pt', p) {
      assert Attended(pt, p);
      if p != x { AttendedState(pt, x, c, p); }
    }
  }

  /** The caller of wait() blocks only when it has a child and none is dead. */
  lemma NoLostBlock(pt: seq<Pcb>, x: int, c: Pcb)
    requires NoLostWakeup(pt) && Live(pt, x) && c == pt[x].(state := Waiting)
    requires HasKid(pt, x) && NoDeadKids(pt, x)
    ensures NoLostWakeup(pt[x := c])
  {
    var pt' := pt[x := c];
    forall p: int ensures Attended(pt', p) {
      assert Attended(pt, p);
      if p != x {
        AttendedState(pt, x, c, p);
      } else {
        var k: int :| ChildOf(pt, k, x);
        assert ChildOf(pt', k, x);
        forall d: int ensures !DeadChild(pt', d, x) { assert !DeadChild(pt, d, x); }
      }
    }
  }

  lemma NoLostFork(pt: seq<Pcb>, n: int, c: Pcb)
    requires NoLostWakeup(pt) && Slot(pt, n) && !Live(pt, n)
    requires c.state != Waiting && c.state != Zombie && c.state != Unused
    ensures NoLostWakeup(pt[n := c])
  {
    var pt' := pt[n := c];
    forall p: int ensures Attended(pt', p) {
      assert Attended(pt, p);
      if IsIn(pt', p, Waiting) {
        var k: int :| ChildOf(pt, k, p);
        assert ChildOf(pt', k, p);
        forall d: int ensures !DeadChild(pt', d, p) { assert !DeadChild(pt, d, p); }
      }
    }
  }

  /** Reparenting can only trouble init, and only if one of the children is dead. */
  lemma AttendedAdopt(pt: seq<Pcb>, init: int, x: int, p: int)
    requires Attended(pt, p) && IsIn(pt, x, Running) && x != init
    requires p == init ==> NoDeadKids(pt, x)
    ensures Attended(Adopt(pt, x, init), p)
  {
    var pt' := Adopt(pt, x, init);
    if IsIn(pt', p, Waiting) {
      var k: int :| ChildOf(pt, k, p);
      assert ChildOf(pt', k, p);
      forall d: int ensures !DeadChild(pt', d, p) {
        assert !DeadChild(pt, d, p);
        assert !DeadChild(pt, d, x) || p != init;
      }
    }
  }
}
