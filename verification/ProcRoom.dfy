/**
 When memory runs out.  The nodes in use are counted exactly, so it is known how many reaps
 by sys_wait the queue nodes bear; and a request for a stack is refused only when there is none.
 */
module ProcRoom {
  import opened QueueSpec
  import opened PageList
  import opened ProcSpec
  import opened ProcSched
  import opened ProcReap
  import opened ProcMem
  import opened ProcInv
  import opened ProcSteps
  import opened ProcHalt
  import opened ProcFair
  import opened ProcBoot

  // ---- queue nodes in use ----------------------------------------------------------------------

  ghost function InState(pt: seq<Pcb>, st: State): set<int> {
    set p | 0 <= p < |pt| && pt[p].state == st
  }

  /** The ready processes of level q. */
  ghost function ReadyAt(pt: seq<Pcb>, q: nat): set<int> {
    set p | 0 <= p < |pt| && pt[p].state == Ready && pt[p].priority == q
  }

  lemma QueueIsSet(xs: seq<int>, a: set<int>)
    requires forall p: int :: Occ(xs, p) == if p in a then 1 else 0
    ensures |xs| == |a|
  {
    forall p: int ensures multiset(xs)[p] == multiset(a)[p] { assert Occ(xs, p) == multiset(xs)[p]; }
    assert multiset(xs) == multiset(a);
  }

  lemma ReadyLength(s: St, q: nat)
    requires Good(s) && q < N_PRIOS
    ensures |s.ready| == N_PRIOS && |s.ready[q]| == |ReadyAt(s.pt, q)|
  {
    forall p: int ensures Occ(s.ready[q], p) == if p in ReadyAt(s.pt, q) then 1 else 0 {
      assert InPlace(s.pt, s.ready, s.sleeping, p);
    }
    QueueIsSet(s.ready[q], ReadyAt(s.pt, q));
  }

  lemma SleepLengthIs(s: St)
    requires Good(s)
    ensures |s.sleeping| == |InState(s.pt, Sleeping)|
  {
    forall p: int ensures Occ(s.sleeping, p) == if p in InState(s.pt, Sleeping) then 1 else 0 {
      assert InPlace(s.pt, s.ready, s.sleeping, p);
    }
    QueueIsSet(s.sleeping, InState(s.pt, Sleeping));
  }

  lemma ReadyLevels(pt: seq<Pcb>)
    requires AllTidy(pt)
    ensures |InState(pt, Ready)| == |ReadyAt(pt, 0)| + |ReadyAt(pt, 1)| + |ReadyAt(pt, 2)|
  {
    var a, b, c := ReadyAt(pt, 0), ReadyAt(pt, 1), ReadyAt(pt, 2);
    forall p: int ensures p in InState(pt, Ready) <==> p in a + b + c { assert Tidy(pt, p); }
    assert InState(pt, Ready) == a + b + c;
    assert |a + b| == |a| + |b| && |a + b + c| == |a + b| + |c|;
  }

  /** The nodes in use: one for every process that is ready, asleep or a zombie, and one for every reap
      by sys_wait. */
  lemma EntriesExactly(s: St)
    requires Good(s)
    ensures |s.ready| == N_PRIOS
    ensures Entries(s) ==
      |InState(s.pt, Ready)| + |InState(s.pt, Sleeping)| + |InState(s.pt, Zombie)| + |s.hist.stale|
  {
    ReadyLength(s, 0);
    ReadyLength(s, 1);
    ReadyLength(s, 2);
    ReadyLevels(s.pt);
    SleepLengthIs(s);
    ZombieQueueLength(s.pt, s.zombie, s.hist.stale);
    assert Zombies(s.pt) == InState(s.pt, Zombie);
  }

  /** The running process needs no node. */
  lemma EntriesBound(s: St)
    requires Good(s)
    ensures |s.ready| == N_PRIOS && Entries(s) < |s.pt| + |s.hist.stale|
  {
    CurrentRuns(s);
    EntriesExactly(s);
    var a, b, c := InState(s.pt, Ready), InState(s.pt, Sleeping), InState(s.pt, Zombie);
    assert |a + b| == |a| + |b| && |a + b + c| == |a + b| + |c|;
    var all := Slots(|s.pt|);
    assert s.current in all && s.current !in a + b + c && a + b + c <= all;
    SubsetSize(a + b + c + {s.current}, all);
  }

  /** As long as slots and reaps by sys_wait together do not exceed the nodes of the pages bought, no
      step halts for lack of memory. */
  lemma EnoughNodes(s: St, e: Event)
    requires Good(s) && |s.pt| + |s.hist.stale| <= QNODES_PER_PAGE * |s.mem.qpages|
    ensures Step(s, e) != Halted(NoMemory)
  {
    EntriesBound(s);
    TakeStackPool(s.mem);
    HaltsExactly(s, e);
  }

  /** So in every reachable state with a table of |pt| slots 512 - |pt| reaps by sys_wait are harmless. */
  lemma MemorySuffices(s: St, e: Event)
    requires Reachable(s) && |s.pt| + |s.hist.stale| <= 512
    ensures Step(s, e) != Halted(NoMemory)
  {
    ReachableSound(s);
    ReachableBooked(s);
    EnoughNodes(s, e);
  }

  lemma ReachableBooked(s: St)
    requires Reachable(s)
    ensures s.mem.qpages != []
  {
    var n: nat, free: seq<Block>, es: seq<Event> :|
      Sorted(free) && Boot(n, free).Next? && Run(Boot(n, free).s, es) == Next(s);
    RunBooked(n, free, es);
  }

  /** The stack freed last is granted first, and the list is then as it was. */
  lemma LastFreedFirst(m: Mem, stk: nat)
    requires stk != 0
    ensures var m1 := GiveStack(m, stk);
      StackGranted(m1) == stk && TakeStack(m1).stkHead == m.stkHead && TakeStack(m1).free == m.free
      && forall x: nat :: x != stk ==> LinkIn(TakeStack(m1).link, x) == LinkIn(m.link, x)
  {
  }

  // ---- stacks --------------------------------------------------------------------------------

  /** If the list of free pages was coalesced at boot it is coalesced in every run, and a stack is
      refused exactly when none is on the free stack list and no two free pages are adjacent. */
  lemma StackRefused(n: nat, free: seq<Block>, es: seq<Event>)
    requires Coalesced(free) && Boot(n, free).Next? && Run(Boot(n, free).s, es).Next?
    ensures var m := Run(Boot(n, free).s, es).s.mem;
      Coalesced(m.free) && (StackGranted(m) == 0 <==> m.stkHead == 0 && !HasRun(m.free, 2))
  {
    RunBooked(n, free, es);
    AllocComplete(Run(Boot(n, free).s, es).s.mem.free, STACK_PAGES);
  }

  /** So fork() fails exactly when the table is full or there is no stack, and exec() exactly when there
      is no stack. */
  lemma RefusedRightly(n: nat, free: seq<Block>, es: seq<Event>, prio: Word)
    requires Coalesced(free) && Boot(n, free).Next? && Run(Boot(n, free).s, es).Next?
    ensures var s := Run(Boot(n, free).s, es).s;
      var noStack := s.mem.stkHead == 0 && !HasRun(s.mem.free, 2);
      && WellFormed(s)
      && (Exec(s) == Returns(s, S_ERROR) <==> noStack)
      && (DoFork(s, prio) == Next(Returns(s, S_ERROR)) <==> noStack || forall p: int :: Slot(s.pt, p) ==> Live(s.pt, p))
  {
    var s := Run(Boot(n, free).s, es).s;
    BootSound(n, free);
    RunSound(Boot(n, free).s, es);
    CurrentRuns(s);
    StackRefused(n, free, es);
    ExecRefused(s);
    ForkRefused(s, prio);
  }

  lemma ExecRefused(s: St)
    requires WellFormed(s)
    ensures Exec(s) == Returns(s, S_ERROR) <==> StackGranted(s.mem) == 0
  {
    assert Returns(s, S_ERROR).pt[s.current].ret == S_ERROR;
    if StackGranted(s.mem) != 0 { assert Exec(s).pt[s.current].ret == 0; }
  }

  lemma ForkRefused(s: St, prio: Word)
    requires WellFormed(s)
    ensures DoFork(s, prio) == Next(Returns(s, S_ERROR)) <==>
              StackGranted(s.mem) == 0 || forall p: int :: Slot(s.pt, p) ==> Live(s.pt, p)
  {
    var n := FirstUnused(s.pt, 0);
    if n < |s.pt| {
      assert Slot(s.pt, n) && !Live(s.pt, n);
      if StackGranted(s.mem) != 0 {
        if DoFork(s, prio).Next? { assert |DoFork(s, prio).s.hist.forks| == |s.hist.forks| + 1; }
      }
    }
  }
}
