/**
 From boot on.  `Boot` is main() after km_init: it buys the first page of queue nodes, the
 kernel stack and init's stack, builds init's PCB and dispatches it.  The theorems collect
 what holds in every state any run can reach.
 */
module ProcBoot {
  import opened Wrappers
  import opened QueueSpec
  import opened PageList
  import opened Sequences
  import opened ProcSpec
  import opened ProcSched
  import opened ProcFamily
  import opened ProcReap
  import opened ProcMem
  import opened ProcInv
  import opened ProcSteps
  import opened ProcHalt
  import opened ProcSleep
  import opened ProcStacks
  import opened ProcPages
  import opened ProcLost
  import opened ProcLineage

  const NO_HISTORY: History := History([], [], [], multiset{}, 0)

  /** que_init: the pool starts with one page of nodes. */
  function PoolMem(free: seq<Block>): Mem {
    Mem(AllocList(free, 1), QNODES_PER_PAGE, [GrantBase(free, 1)], 0, [], 0, map[])
  }

  /** stk_init: memory once the kernel has its stack. */
  function KernelMem(free: seq<Block>): Mem {
    TakeStack(PoolMem(free)).(kstack := StackGranted(PoolMem(free)))
  }

  /** init's PCB: its own parent, at the highest priority. */
  function InitPcb(stack: nat): Pcb {
    CLEARED.(state := New, pid := PID_INIT, priority := 0, stack := stack, parent := 0)
  }

  function Boot(n: nat, free: seq<Block>): Outcome {
    if GrantBase(free, 1) == 0 then Halted(NoMemory) else
    if StackGranted(PoolMem(free)) == 0 then Halted(NoMemory) else
    var m1 := KernelMem(free);
    if n == 0 then Halted(BadPcb) else
    if StackGranted(m1) == 0 then Halted(NoMemory) else
    var pt := seq(n, _ => CLEARED)[0 := InitPcb(StackGranted(m1))];
    var s := St(pt, [[], [], []], [], [], NIL, 0, FIRST_USER_PID, 0, TakeStack(m1), NO_HISTORY);
    var s1 :- Schedule(s, 0);
    Dispatch(s1)
  }

  // ---- the first state -------------------------------------------------------------------

  lemma {:induction false} CensusEmpty(n: nat)
    ensures Census(seq(n, _ => CLEARED)) == multiset{}
    ensures Held(seq(n, _ => CLEARED)) == multiset{}
  {
    if n > 0 {
      assert seq(n, _ => CLEARED)[..n - 1] == seq(n - 1, _ => CLEARED);
      CensusEmpty(n - 1);
    }
  }

  lemma NobodyPlaced(n: nat)
    ensures Placed(seq(n, _ => CLEARED), [[], [], []], [], NIL)
  {
    var pt := seq(n, _ => CLEARED);
    forall p: int ensures InPlace(pt, [[], [], []], [], p) {}
    forall p: int ensures OnCpu(pt, p, NIL) {}
  }

  lemma OneReady(e: seq<seq<int>>)
    requires e == [[], [], []]
    ensures e[0 := e[0] + [0]] == [[0], [], []]
  {
    assert e[0] + [0] == [0];
  }

  /** The state in which init has been put on its ready queue. */
  lemma BootInv(n: nat, stack: nat, m: Mem)
    requires n > 0 && stack != 0 && m.qfree == QNODES_PER_PAGE && |m.qpages| == 1
    ensures var pt := seq(n, _ => CLEARED)[0 := InitPcb(stack).(state := Ready)];
      Inv(St(pt, [[0], [], []], [], [], NIL, 0, FIRST_USER_PID, 0, m.(qfree := m.qfree - 1), NO_HISTORY), NIL)
      && NoLostWakeup(pt)
  {
    var pt0 := seq(n, _ => CLEARED);
    var c := InitPcb(stack);
    var pt := pt0[0 := c.(state := Ready)];
    NobodyPlaced(n);
    PlacedNowhere(pt0, [[], [], []], [], NIL, 0, c);
    var empty: seq<seq<int>> := [[], [], []];
    PlacedReady(pt0[0 := c], empty, [], NIL, 0);
    assert pt0[0 := c][0 := c.(state := Ready)] == pt;
    OneReady(empty);
    var rank: seq<nat> := seq(n, i => i);
    forall p: int ensures Kin(pt, 0, rank, p) {}
    assert Tree(pt, 0, rank);
    forall p: int ensures Attended(pt, p) {}
    forall p: int ensures Tidy(pt, p) {}
    forall p: int ensures Queued(pt, [], multiset{}, p) {}
    CensusEmpty(n);
    CensusUpdate(pt0, 0, c.(state := Ready));
    BootAccounted(pt);
  }

  lemma BootAccounted(pt: seq<Pcb>)
    requires Census(pt) == multiset{Alive(PID_INIT)}
    ensures Accounted(pt, NO_HISTORY)
  {
    forall e: Exited ensures Reported(Census(pt), NO_HISTORY, e) {}
    forall pid: int ensures Counted(Census(pt), NO_HISTORY, pid) {}
  }

  lemma BootPages(free: seq<Block>)
    requires Sorted(free) && GrantBase(free, 1) != 0
    ensures PagesLaw(PoolMem(free), PageSet(free))
  {
    GrantOne(free, GrantBase(free, 1));
    FirstPage(AllocList(free, 1), PageSet(free), GrantBase(free, 1));
  }

  lemma FirstPage(left: seq<Block>, arena: set<nat>, page: nat)
    requires Sorted(left) && page in arena && PageSet(left) == arena - {page}
    ensures PagesLaw(Mem(left, QNODES_PER_PAGE, [page], 0, [], 0, map[]), arena)
  {
    DistinctAppend([], page);
    assert [] + [page] == [page];
  }

  lemma PagesKstack(m: Mem, k: nat, arena: set<nat>)
    requires PagesLaw(m, arena)
    ensures PagesLaw(m.(kstack := k), arena)
  {
  }

  lemma BootMem(n: nat, free: seq<Block>)
    requires Sorted(free) && n > 0 && GrantBase(free, 1) != 0 && StackGranted(PoolMem(free)) != 0
    ensures MemInv(seq(n, _ => CLEARED), KernelMem(free), PageSet(free))
  {
    var m0, m1 := PoolMem(free), KernelMem(free);
    BootPages(free);
    PagesTakeStack(m0, PageSet(free));
    PagesKstack(TakeStack(m0), StackGranted(m0), PageSet(free));
    CensusEmpty(n);
    assert Owners(seq(n, _ => CLEARED), m1, []);
  }

  lemma BootMemInit(n: nat, m1: Mem, arena: set<nat>)
    requires n > 0 && MemInv(seq(n, _ => CLEARED), m1, arena) && StackGranted(m1) != 0
    ensures MemInv(seq(n, _ => CLEARED)[0 := InitPcb(StackGranted(m1))], TakeStack(m1), arena)
  {
    PagesTakeStack(m1, arena);
    StacksFork(seq(n, _ => CLEARED), m1, 0, InitPcb(StackGranted(m1)));
  }

  /** What main() has when it calls dispatch(). */
  function AtDispatch(n: nat, m: Mem, stack: nat): St
    requires n > 0
  {
    St(seq(n, _ => CLEARED)[0 := InitPcb(stack).(state := Ready)], [[0], [], []], [], [], NIL, 0, FIRST_USER_PID, 0,
       m.(qfree := QNODES_PER_PAGE - 1), NO_HISTORY)
  }

  function BootState(n: nat, free: seq<Block>): St
    requires n > 0
  {
    AtDispatch(n, TakeStack(KernelMem(free)), StackGranted(KernelMem(free)))
  }

  lemma BootIs(n: nat, free: seq<Block>)
    requires Boot(n, free).Next?
    ensures n > 0 && GrantBase(free, 1) != 0 && StackGranted(PoolMem(free)) != 0 && StackGranted(KernelMem(free)) != 0
    ensures var m := TakeStack(KernelMem(free)); m.qfree == QNODES_PER_PAGE && |m.qpages| == 1
    ensures Boot(n, free) == Dispatch(BootState(n, free))
  {
    var m1 := KernelMem(free);
    TakeStackPool(PoolMem(free));
    TakeStackPool(m1);
    var empty: seq<seq<int>> := [[], [], []];
    OneReady(empty);
    var pt := seq(n, _ => CLEARED)[0 := InitPcb(StackGranted(m1))];
    assert pt[0 := pt[0].(state := Ready)] == BootState(n, free).pt;
  }

  /** What a running system is entitled to. */
  ghost predicate Sound(s: St) {
    Good(s) && SleepInv(s) && Lined(s, Gone(s.hist.exits)) && PidInv(s)
  }

  lemma BootGood(n: nat, free: seq<Block>)
    requires Boot(n, free).Next?
    ensures n > 0 && Inv(BootState(n, free), NIL) && NoLostWakeup(BootState(n, free).pt)
    ensures Dispatch(BootState(n, free)).Next? && Boot(n, free) == Dispatch(BootState(n, free))
  {
    BootIs(n, free);
    BootInv(n, StackGranted(KernelMem(free)), TakeStack(KernelMem(free)));
  }

  lemma BootRest(a: St)
    requires Inv(a, NIL) && NoLostWakeup(a.pt) && Dispatch(a).Next?
    requires a.init == 0 && a.pt[0].pid == PID_INIT && a.hist == NO_HISTORY && a.nextPid == FIRST_USER_PID
    requires a.time == 0 && a.sleeping == [] && forall i :: 0 < i < |a.pt| ==> a.pt[i].state == Unused
    requires a.pt[0].state == Ready
    ensures Sound(Dispatch(a).s)
  {
    InvDispatch(a);
    BootLined(a);
    LineDispatch(a, {});
    assert Gone([]) == {};
    DispatchSleepInv(a);
  }

  /** Boot, when it succeeds, establishes everything. */
  lemma BootSound(n: nat, free: seq<Block>)
    requires Sorted(free) && Boot(n, free).Next?
    ensures Sound(Boot(n, free).s) && MemInv(Boot(n, free).s.pt, Boot(n, free).s.mem, PageSet(free))
  {
    BootGood(n, free);
    BootRest(BootState(n, free));
    BootStateMem(n, free);
    MemDispatch(BootState(n, free), PageSet(free));
  }

  /** The machine as it starts: init alone, running in slot 0 at the highest level with PID 1 and three
      ticks, its own parent, at time 0. */
  lemma BootFacts(n: nat, free: seq<Block>)
    requires Boot(n, free).Next?
    ensures var s := Boot(n, free).s;
      && |s.pt| == n > 0 && s.current == 0 && s.init == 0 && s.time == 0 && s.nextPid == 2
      && s.pt[0].state == Running && s.pt[0].pid == 1 && s.pt[0].priority == 0 && s.pt[0].parent == 0
      && s.pt[0].quantum == 3 && s.pt[0].stack != 0
      && (forall i :: 0 < i < n ==> s.pt[i].state == Unused)
      && s.ready == [[], [], []] && s.sleeping == [] && s.zombie == []
  {
    BootIs(n, free);
    StartsInit(BootState(n, free));
  }

  lemma StartsInit(a: St)
    requires a.pt != [] && a.ready == [[0], [], []] && Dispatch(a).Next?
    ensures var s := Dispatch(a).s;
      && s.current == 0 && s.ready == [[], [], []] && s.pt == a.pt[0 := a.pt[0].(state := Running, quantum := 3)]
      && s.init == a.init && s.time == a.time && s.nextPid == a.nextPid
      && s.sleeping == a.sleeping && s.zombie == a.zombie
  {
    assert a.ready[0][1..] == [];
  }

  /** The pages, and the free list if it was coalesced, are in order at boot and stay so. */
  lemma RunBooked(n: nat, free: seq<Block>, es: seq<Event>)
    requires Sorted(free) && Boot(n, free).Next? && Run(Boot(n, free).s, es).Next?
    ensures var s := Run(Boot(n, free).s, es).s;
      Booked(s.pt, s.mem, PageSet(free), 0, Coalesced(free)) && PagesLaw(s.mem, PageSet(free))
  {
    BootSound(n, free);
    BootCoalesced(n, free);
    BookedRun(Boot(n, free).s, es, PageSet(free), 0, Coalesced(free));
  }

  lemma BootCoalesced(n: nat, free: seq<Block>)
    requires Sorted(free) && Boot(n, free).Next?
    ensures Coalesced(free) ==> Coalesced(Boot(n, free).s.mem.free)
  {
    BootIs(n, free);
    AllocSorted(free, 1);
    AllocSorted(PoolMem(free).free, STACK_PAGES);
    AllocSorted(KernelMem(free).free, STACK_PAGES);
  }

  lemma BootLined(a: St)
    requires Slot(a.pt, 0) && a.init == 0 && a.pt[0].pid == PID_INIT && a.hist == NO_HISTORY
    requires forall i :: 0 < i < |a.pt| ==> a.pt[i].state == Unused
    ensures Lined(a, {})
  {
    forall p: int ensures Lineage(a.pt, a.init, a.hist.forks, {}, p) {}
  }

  lemma BootStateMem(n: nat, free: seq<Block>)
    requires Sorted(free) && Boot(n, free).Next?
    ensures n > 0 && MemInv(BootState(n, free).pt, BootState(n, free).mem, PageSet(free))
  {
    BootIs(n, free);
    BootMem(n, free);
    var m1 := KernelMem(free);
    BootMemInit(n, m1, PageSet(free));
    BootReadyMem(n, TakeStack(m1), StackGranted(m1), PageSet(free));
  }

  lemma BootReadyMem(n: nat, m: Mem, stack: nat, arena: set<nat>)
    requires n > 0 && m.qfree == QNODES_PER_PAGE
    requires MemInv(seq(n, _ => CLEARED)[0 := InitPcb(stack)], m, arena)
    ensures MemInv(AtDispatch(n, m, stack).pt, AtDispatch(n, m, stack).mem, arena)
  {
    var pt := seq(n, _ => CLEARED)[0 := InitPcb(stack)];
    MemQnode(pt, m, arena);
    MemOne(pt, m.(qfree := QNODES_PER_PAGE - 1), arena, 0, pt[0].(state := Ready));
    assert pt[0 := pt[0].(state := Ready)] == AtDispatch(n, m, stack).pt;
  }

  lemma {:induction false} RunSound(s: St, es: seq<Event>)
    requires Sound(s) && Run(s, es).Next?
    ensures Sound(Run(s, es).s)
    decreases |es|
  {
    if es != [] {
      StepGood(s, es[0]);
      StepSleepInv(s, es[0]);
      LineStep(s, es[0]);
      StepPids(s, es[0]);
      RunSound(Step(s, es[0]).s, es[1..]);
    }
  }

  // ---- the theorems -------------------------------------------------------------------------

  /** A state some run can reach from boot. */
  ghost predicate Reachable(s: St) {
    exists n: nat, free: seq<Block>, es: seq<Event> ::
      Sorted(free) && Boot(n, free).Next? && Run(Boot(n, free).s, es) == Next(s)
  }

  lemma ReachableSound(s: St)
    requires Reachable(s)
    ensures Sound(s)
  {
    var n: nat, free: seq<Block>, es: seq<Event> :|
      Sorted(free) && Boot(n, free).Next? && Run(Boot(n, free).s, es) == Next(s);
    BootSound(n, free);
    RunSound(Boot(n, free).s, es);
  }

  /** In every reachable state a process that waits has a child, none of its children is dead,
      and its parent pointers lead to init. */
  lemma NobodyWaitsInVain(s: St, p: int)
    requires Reachable(s) && IsIn(s.pt, p, Waiting)
    ensures HasKid(s.pt, p) && NoDeadKids(s.pt, p)
    ensures exists k: nat :: Ancestor(s.pt, p, k) == s.init
  {
    ReachableSound(s);
    assert Attended(s.pt, p);
    FamilyReachesInit(s.pt, s.init, p);
  }

  lemma PlacedExactly(pt: seq<Pcb>, ready: seq<seq<int>>, sleeping: seq<int>, current: int, p: int)
    requires Placed(pt, ready, sleeping, current) && Tidy(pt, p)
    ensures |ready| == N_PRIOS
    ensures IsIn(pt, p, Running) <==> p == current && p != NIL
    ensures forall q :: 0 <= q < N_PRIOS ==>
              Occ(ready[q], p) == if IsIn(pt, p, Ready) && pt[p].priority == q then 1 else 0
    ensures Occ(sleeping, p) == if IsIn(pt, p, Sleeping) then 1 else 0
    ensures IsIn(pt, p, Ready) ==> pt[p].priority < N_PRIOS
    ensures !IsIn(pt, p, New) && !IsIn(pt, p, Blocked)
  {
    assert InPlace(pt, ready, sleeping, p);
    assert OnCpu(pt, p, current);
  }

  /** In every reachable state each PCB is in exactly the place its state says. */
  lemma EveryoneInPlace(s: St, p: int)
    requires Reachable(s)
    ensures |s.ready| == N_PRIOS
    ensures IsIn(s.pt, p, Running) <==> p == s.current
    ensures forall q :: 0 <= q < N_PRIOS ==>
              Occ(s.ready[q], p) == if IsIn(s.pt, p, Ready) && s.pt[p].priority == q then 1 else 0
    ensures Occ(s.sleeping, p) == if IsIn(s.pt, p, Sleeping) then 1 else 0
    ensures IsIn(s.pt, p, Ready) ==> s.pt[p].priority < N_PRIOS
    ensures !IsIn(s.pt, p, New) && !IsIn(s.pt, p, Blocked)
    ensures Slot(s.pt, s.current) && 1 <= s.pt[s.current].quantum <= Q_STD
  {
    ReachableSound(s);
    assert Tidy(s.pt, p);
    PlacedExactly(s.pt, s.ready, s.sleeping, s.current, p);
  }

  /** The zombie queue holds every zombie, and one stale entry for every reap by sys_wait; so the
      que_remove_by in sys_exit always finds what it looks for. */
  lemma ZombieQueueExact(s: St, p: int, e: Event)
    requires Reachable(s)
    ensures |s.zombie| == |Zombies(s.pt)| + |s.hist.stale|
    ensures Occ(s.zombie, p) == (if IsIn(s.pt, p, Zombie) then 1 else 0) + s.hist.stale[p]
    ensures Step(s, e) != Halted(LostZombie)
  {
    ReachableSound(s);
    ZombieQueueLength(s.pt, s.zombie, s.hist.stale);
    assert Queued(s.pt, s.zombie, s.hist.stale, p);
    NeverLost(s, e);
  }

  lemma NeverLost(s: St, e: Event)
    requires Good(s)
    ensures Step(s, e) != Halted(LostZombie)
  {
    HaltsExactly(s, e);
  }

  /** Every delivered status went to the process that forked the child, or to init after that
      process had exited. */
  lemma DeliveredRightly(s: St, i: nat)
    requires Reachable(s) && i < |s.hist.log|
    ensures exists k :: 0 <= k < |s.hist.forks| && s.hist.forks[k].child == s.hist.log[i].what.pid
              && (s.hist.log[i].to == s.hist.forks[k].parent
                  || (s.hist.log[i].to == PID_INIT && s.hist.forks[k].parent in Gone(s.hist.exits)))
  {
    ReachableSound(s);
    assert Rightly(s.hist.log[i], s.hist.forks, Gone(s.hist.exits));
    var k :| 0 <= k < |s.hist.forks| && s.hist.forks[k].child == s.hist.log[i].what.pid
             && RightParent(s.hist.forks[k], s.hist.log[i].to, Gone(s.hist.exits));
  }

  /** Until next_pid overflows every exit is reaped exactly once: the process is still a zombie that
      holds its status, or its PID and status have been delivered, by one wait. */
  lemma ReapedExactlyOnce(s: St, e: Exited)
    requires Reachable(s) && |s.hist.forks| <= TWO_31 - FIRST_USER_PID && e in s.hist.exits
    ensures Census(s.pt)[Dead(e)] + Delivered(s.hist.log)[e] == 1
  {
    ReachableSound(s);
    ReapedOnce(s, e);
  }

  /** As long as no exec has been granted a stack, no two live processes share a stack with each other
      or with the kernel, and no stack page is free or holds queue nodes; every stack bought is the kernel's, a live
      process's or on the free list, exactly once. */
  lemma StacksNeverShared(n: nat, free: seq<Block>, es: seq<Event>, p: int, q: int)
    requires Sorted(free) && Boot(n, free).Next? && Run(Boot(n, free).s, es).Next?
    requires NoExecGranted(Boot(n, free).s, es)
    requires var s := Run(Boot(n, free).s, es).s; Live(s.pt, p) && Live(s.pt, q) && p != q
    ensures var s := Run(Boot(n, free).s, es).s;
      && StacksLaw(s.pt, s.mem)
      && Span(s.pt[p].stack, STACK_PAGES) !! Span(s.pt[q].stack, STACK_PAGES)
      && Span(s.pt[p].stack, STACK_PAGES) !! Span(s.mem.kstack, STACK_PAGES)
      && Span(s.pt[p].stack, STACK_PAGES) <= PageSet(free) - PageSet(s.mem.free) - Numbers(s.mem.qpages)
  {
    BootSound(n, free);
    var b := Boot(n, free).s;
    MemRunExactly(b, es, PageSet(free));
    var s := Run(b, es).s;
    StacksDisjoint(s.pt, s.mem, PageSet(free), p, q);
  }

  /** And only as long: after any run from boot every stack has one owner if and only if no exec of the
      run was granted a stack. */
  lemma StacksLawExactly(n: nat, free: seq<Block>, es: seq<Event>)
    requires Sorted(free) && Boot(n, free).Next? && Run(Boot(n, free).s, es).Next?
    ensures var s := Run(Boot(n, free).s, es).s; StacksLaw(s.pt, s.mem) <==> NoExecGranted(Boot(n, free).s, es)
  {
    BootSound(n, free);
    RunBooked(n, free, es);
    MemRunExactly(Boot(n, free).s, es, PageSet(free));
  }

  /** The stack the first such exec is granted is lost, and whatever happens afterwards stays lost. */
  lemma FirstExecLoses(n: nat, free: seq<Block>, es: seq<Event>, e: Event, more: seq<Event>)
    requires Sorted(free) && Boot(n, free).Next? && Run(Boot(n, free).s, es).Next?
    requires var s := Run(Boot(n, free).s, es).s;
      NoExecGranted(Boot(n, free).s, es) && ExecGranted(s, e) && Run(s, [e] + more).Next?
    ensures var s := Run(Boot(n, free).s, es).s; var s' := Run(s, [e] + more).s;
      StackGranted(s.mem) != 0 && Lost(s'.pt, s'.mem, StackGranted(s.mem))
  {
    BootSound(n, free);
    RunGood(Boot(n, free).s, es);
    MemRunExactly(Boot(n, free).s, es, PageSet(free));
    LosesForGood(Run(Boot(n, free).s, es).s, e, more, PageSet(free));
  }

  lemma LosesForGood(s: St, e: Event, more: seq<Event>, arena: set<nat>)
    requires Good(s) && MemInv(s.pt, s.mem, arena) && ExecGranted(s, e) && Run(s, [e] + more).Next?
    ensures var s' := Run(s, [e] + more).s; Lost(s'.pt, s'.mem, StackGranted(s.mem))
  {
    assert ([e] + more)[1..] == more;
    var s1 := Step(s, e).s;
    assert Run(s, [e] + more) == Run(s1, more);
    StepLoses(s, e, arena);
    BookedRun(s1, more, arena, StackGranted(s.mem), false);
  }

  lemma {:induction false} PageCount(xs: seq<nat>)
    requires Distinct(xs)
    ensures |Numbers(xs)| == |xs|
  {
    if xs != [] {
      var n := |xs| - 1;
      PageCount(xs[..n]);
      assert xs == xs[..n] + [xs[n]];
      assert Numbers(xs) == Numbers(xs[..n]) + {xs[n]};
      assert xs[n] !in xs[..n];
    }
  }

  /** In every run from boot, whatever it calls, the pages that were free at boot are at any time
      divided between the free list, the stacks bought and the queue node pages. */
  lemma PagesNeverLost(n: nat, free: seq<Block>, es: seq<Event>)
    requires Sorted(free) && Boot(n, free).Next? && Run(Boot(n, free).s, es).Next?
    ensures var m := Run(Boot(n, free).s, es).s.mem;
      && PageSet(m.free) !! StackSpans(m.stacks) !! Numbers(m.qpages)
      && PageSet(m.free) + StackSpans(m.stacks) + Numbers(m.qpages) == PageSet(free)
      && Distinct(m.qpages) && Separate(m.stacks)
      && |PageSet(m.free)| + STACK_PAGES * |m.stacks| + |m.qpages| == |PageSet(free)|
  {
    RunBooked(n, free, es);
    PagesCounted(Run(Boot(n, free).s, es).s.mem, PageSet(free));
  }

  lemma PagesCounted(m: Mem, arena: set<nat>)
    requires PagesLaw(m, arena)
    ensures |PageSet(m.free)| + STACK_PAGES * |m.stacks| + |m.qpages| == |arena|
  {
    PageCount(m.qpages);
    StackCount(m.stacks);
    var a := PageSet(m.free) + StackSpans(m.stacks);
    assert arena == a + Numbers(m.qpages);
  }

  lemma {:induction false} StackCount(xs: seq<nat>)
    requires Separate(xs)
    ensures |StackSpans(xs)| == STACK_PAGES * |xs|
  {
    if xs != [] {
      var t, b := xs[..|xs| - 1], xs[|xs| - 1];
      StackCount(t);
      SpansApart(t, b);
      assert Span(b, STACK_PAGES) == {b, b + 1};
    }
  }

  lemma {:induction false} SpansApart(xs: seq<nat>, b: nat)
    requires forall i :: 0 <= i < |xs| ==> xs[i] + STACK_PAGES <= b || b + STACK_PAGES <= xs[i]
    ensures Span(b, STACK_PAGES) !! StackSpans(xs)
  {
    if xs != [] { SpansApart(xs[..|xs| - 1], b); }
  }

  /** The entries that sys_wait leaves behind are never recovered: in a machine with P free pages
      at boot no run can reap more than 512 * P children through sys_wait. */
  lemma ReapsAreLimited(n: nat, free: seq<Block>, es: seq<Event>)
    requires Sorted(free) && Boot(n, free).Next? && Run(Boot(n, free).s, es).Next?
    ensures |Run(Boot(n, free).s, es).s.hist.stale| <= 512 * |PageSet(free)|
  {
    BootSound(n, free);
    RunBooked(n, free, es);
    RunSound(Boot(n, free).s, es);
    var s := Run(Boot(n, free).s, es).s;
    ZombieQueueLength(s.pt, s.zombie, s.hist.stale);
    PageCount(s.mem.qpages);
    SubsetSize(Numbers(s.mem.qpages), PageSet(free));
  }

  lemma SubsetSize<T>(a: set<T>, b: set<T>)
    requires a <= b
    ensures |a| <= |b|
  {
    assert b == a + (b - a);
  }
}
