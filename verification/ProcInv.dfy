/**
 The invariant of the process core, kept by each primitive of the kernel.  `Inv(s, r)`
 holds inside a step as well, where `r` is the process on the CPU or NIL.
 */
module ProcInv {
  import opened Wrappers
  import opened QueueSpec
  import opened ProcSpec
  import opened ProcSched
  import opened ProcFamily
  import opened ProcReap
  import opened ProcMem

  /** No PCB is left half-built or blocked; live ones have a stack and a proper priority. */
  ghost predicate Tidy(pt: seq<Pcb>, p: int) {
    Slot(pt, p) ==>
      && pt[p].state != New && pt[p].state != Blocked
      && (pt[p].state != Unused ==> pt[p].priority < N_PRIOS && pt[p].stack != 0)
      && (pt[p].state == Unused ==> pt[p].stack == 0)
  }

  ghost predicate AllTidy(pt: seq<Pcb>) {
    forall p: int :: Tidy(pt, p)
  }

  ghost predicate Inv(s: St, r: int) {
    && Slot(s.pt, s.init)
    && Placed(s.pt, s.ready, s.sleeping, r)
    && Family(s.pt, s.init)
    && ZombieLaw(s.pt, s.zombie, s.hist.stale)
    && Accounted(s.pt, s.hist)
    && AllTidy(s.pt)
    && QnodeLaw(s)
  }

  /** The invariant between steps. */
  ghost predicate Good(s: St) {
    && Inv(s, s.current) && s.current != NIL
    && NoLostWakeup(s.pt)
    && Slot(s.pt, s.current) && 1 <= s.pt[s.current].quantum <= Q_STD
  }

  lemma CurrentRuns(s: St)
    requires Inv(s, s.current) && s.current != NIL
    ensures IsIn(s.pt, s.current, Running) && WellFormed(s)
  {
    assert OnCpu(s.pt, s.current, s.current);
  }

  // ---- changes that matter to nobody ---------------------------------------------------

  /** Bookkeeping fields: argument, return value, quantum, and the status of a process
      that has not exited. */
  ghost predicate Minor(c: Pcb, c': Pcb) {
    && c'.state == c.state && c'.priority == c.priority && c'.parent == c.parent
    && c'.pid == c.pid && c'.stack == c.stack && c'.wakeup == c.wakeup
    && (c.state == Zombie ==> c'.status == c.status)
  }

  lemma InvMinor(s: St, r: int, x: int, c: Pcb)
    requires Inv(s, r) && Slot(s.pt, x) && Minor(s.pt[x], c)
    ensures Inv(s.(pt := s.pt[x := c]), r)
  {
    var pt' := s.pt[x := c];
    PlacedSame(s.pt, pt', s.ready, s.sleeping, r);
    ZombieLawSame(s.pt, pt', s.zombie, s.hist.stale);
    AccountedOne(s.pt, x, c, s.hist);
    FamilyMinor(s.pt, s.init, x, c);
    assert Tidy(s.pt, x);
    TidyOne(s.pt, x, c);
  }

  lemma TidyOne(pt: seq<Pcb>, x: int, c: Pcb)
    requires AllTidy(pt) && Slot(pt, x)
    requires c.state != New && c.state != Blocked
    requires if c.state == Unused then c.stack == 0 || (pt[x].state == Unused && c.stack == pt[x].stack)
             else (c.priority < N_PRIOS && c.stack != 0)
                  || (pt[x].state != Unused && c.priority == pt[x].priority && c.stack == pt[x].stack)
    ensures AllTidy(pt[x := c])
  {
    var pt' := pt[x := c];
    forall p: int ensures Tidy(pt', p) { assert Tidy(pt, p); assert Tidy(pt, x); }
  }

  lemma FamilyMinor(pt: seq<Pcb>, init: int, x: int, c: Pcb)
    requires Family(pt, init) && Slot(pt, x) && c.state == pt[x].state && c.parent == pt[x].parent
    ensures Family(pt[x := c], init)
  {
    var rank :| Tree(pt, init, rank);
    var pt' := pt[x := c];
    forall p: int ensures Kin(pt', init, rank, p) { assert Kin(pt, init, rank, p); }
    assert Tree(pt', init, rank);
  }

  lemma NoLostMinor(pt: seq<Pcb>, x: int, c: Pcb, p: int)
    requires Attended(pt, p) && Slot(pt, x) && c.state == pt[x].state && c.parent == pt[x].parent
    ensures Attended(pt[x := c], p)
  {
    var pt' := pt[x := c];
    if IsIn(pt', p, Waiting) {
      var k: int :| ChildOf(pt, k, p);
      assert ChildOf(pt', k, p);
      forall d: int ensures !DeadChild(pt', d, p) { assert !DeadChild(pt, d, p); }
    }
  }

  lemma NoLostMinorAll(pt: seq<Pcb>, x: int, c: Pcb)
    requires NoLostWakeup(pt) && Slot(pt, x) && c.state == pt[x].state && c.parent == pt[x].parent
    ensures NoLostWakeup(pt[x := c])
  {
    var pt' := pt[x := c];
    forall p: int ensures Attended(pt', p) { assert Attended(pt, p); NoLostMinor(pt, x, c, p); }
  }

  // ---- scheduler -----------------------------------------------------------------------

  lemma FamilyAlive(pt: seq<Pcb>, init: int, x: int, st: State)
    requires Family(pt, init) && Live(pt, x) && st != Unused && st != Zombie
    ensures Family(pt[x := pt[x].(state := st)], init)
  {
    var rank :| Tree(pt, init, rank);
    TreeState(pt, init, rank, x, pt[x].(state := st));
  }

  lemma TakeQnodeCounts(m: Mem)
    requires TakeQnode(m).Some?
    ensures var m' := TakeQnode(m).value;
      m'.qfree + 1 - QNODES_PER_PAGE * |m'.qpages| == m.qfree - QNODES_PER_PAGE * |m.qpages|
  {
  }

  /** schedule() of a process that was running or waiting. */
  lemma InvSchedule(s: St, r: int, x: int)
    requires Inv(s, r) && (IsIn(s.pt, x, Running) || IsIn(s.pt, x, Waiting))
    requires Schedule(s, x).Next?
    ensures Inv(Schedule(s, x).s, if x == r then NIL else r)
  {
    var s' := Schedule(s, x).s;
    var c := s.pt[x].(state := Ready);
    PlacedReady(s.pt, s.ready, s.sleeping, r, x);
    FamilyAlive(s.pt, s.init, x, Ready);
    ZombieLawSame(s.pt, s'.pt, s.zombie, s.hist.stale);
    AccountedOne(s.pt, x, c, s.hist);
    TidyOne(s.pt, x, c);
    TakeQnodeCounts(s.mem);
  }

  lemma NoLostSchedule(s: St, x: int)
    requires |s.ready| == N_PRIOS && Live(s.pt, x) && Schedule(s, x).Next?
    requires forall p: int :: p != x ==> Attended(s.pt, p)
    ensures NoLostWakeup(Schedule(s, x).s.pt)
  {
    var c := s.pt[x].(state := Ready);
    var pt' := s.pt[x := c];
    forall p: int ensures Attended(pt', p) {
      if p != x { AttendedState(s.pt, x, c, p); }
    }
  }

  /** dispatch() */
  lemma InvDispatch(s: St)
    requires Inv(s, NIL) && NoLostWakeup(s.pt) && Dispatch(s).Next?
    ensures Good(Dispatch(s).s)
    ensures var s' := Dispatch(s).s; IsIn(s.pt, s'.current, Ready) && s'.pt[s'.current].quantum == Q_STD
  {
    var i := TopLevel(s.ready);
    var x := s.ready[i][0];
    HeadOcc(s.ready[i], x);
    assert InPlace(s.pt, s.ready, s.sleeping, x);
    var c := s.pt[x].(state := Running, quantum := Q_STD);
    var s' := Dispatch(s).s;
    PlacedDispatch(s.pt, s.ready, s.sleeping, i, c);
    var c0 := s.pt[x].(state := Running);
    FamilyAlive(s.pt, s.init, x, Running);
    FamilyMinor(s.pt[x := c0], s.init, x, c);
    assert s.pt[x := c0][x := c] == s'.pt;
    ZombieLawSame(s.pt, s'.pt, s.zombie, s.hist.stale);
    AccountedOne(s.pt, x, c, s.hist);
    AccountedHist(s'.pt, s.hist, s'.hist);
    TidyOne(s.pt, x, c);
    NoLostState(s.pt, x, c);
  }

  lemma AccountedHist(pt: seq<Pcb>, h: History, h': History)
    requires Accounted(pt, h) && h'.forks == h.forks && h'.exits == h.exits && h'.log == h.log
    ensures Accounted(pt, h')
  {
    forall e: Exited ensures Reported(Census(pt), h', e) { assert Reported(Census(pt), h, e); }
    forall pid: int ensures Counted(Census(pt), h', pid) { assert Counted(Census(pt), h, pid); }
  }

  // ---- reaping -------------------------------------------------------------------------

  /** The slot of a reaped process: everything else in the PCB stays as it was. */
  function Freed(c: Pcb): Pcb { c.(stack := 0, state := Unused) }

  /** What wait() returns to y when it learns that x has exited. */
  function Told(y: Pcb, x: Pcb): Pcb {
    y.(ret := x.pid, got := if y.arg != 0 then Some(x.status) else y.got)
  }

  lemma CleanupIs(s: St, y: int, x: int)
    requires Slot(s.pt, x) && Slot(s.pt, y) && x != y && s.pt[x].stack != 0
    ensures var s' := Cleanup(StatusReturn(s, y, x), x);
      && s'.pt == s.pt[y := Told(s.pt[y], s.pt[x])][x := Freed(s.pt[x])]
      && s'.mem == GiveStack(s.mem, s.pt[x].stack)
      && s'.hist == s.hist.(log := s.hist.log + [Delivery(Exited(s.pt[x].pid, s.pt[x].status), s.pt[y].pid)])
      && s'.ready == s.ready && s'.sleeping == s.sleeping && s'.zombie == s.zombie && s'.init == s.init
      && s'.current == s.current && s'.nextPid == s.nextPid && s'.time == s.time
  {
  }

  /** schedule(y) and pcb_cleanup(x) do not interfere. */
  lemma CleanupCommutes(s: St, x: int, y: int)
    requires Slot(s.pt, x) && Slot(s.pt, y) && x != y && |s.ready| == N_PRIOS
    ensures Schedule(s, y).Next? <==> Schedule(Cleanup(s, x), y).Next?
    ensures Schedule(s, y).Next? ==> Cleanup(Schedule(s, y).s, x) == Schedule(Cleanup(s, x), y).s
    ensures Schedule(s, y).Halted? ==> Schedule(s, y) == Schedule(Cleanup(s, x), y)
  {
    if Schedule(s, y).Next? {
      assert Cleanup(Schedule(s, y).s, x).pt == Schedule(Cleanup(s, x), y).s.pt;
    }
  }

  lemma FamilyGone(pt: seq<Pcb>, init: int, x: int, st: State)
    requires Family(pt, init) && Live(pt, x) && x != init && NoKids(pt, x) && (st == Unused || st == Zombie)
    ensures Family(pt[x := pt[x].(state := st)], init)
  {
    var rank :| Tree(pt, init, rank);
    TreeState(pt, init, rank, x, pt[x].(state := st));
  }

  /** A zombie has no children: they moved to init when it exited. */
  lemma ZombieChildless(pt: seq<Pcb>, init: int, z: int)
    requires Family(pt, init) && IsIn(pt, z, Zombie)
    ensures NoKids(pt, z) && z != init
  {
    var rank :| Tree(pt, init, rank);
    forall c: int ensures !ChildOf(pt, c, z) { assert Kin(pt, init, rank, c); }
  }

  /** The parts of Inv that do not depend on why x goes. */
  lemma FreedPlaces(pt: seq<Pcb>, ready: seq<seq<int>>, sleeping: seq<int>, r: int, init: int, x: int)
    requires Placed(pt, ready, sleeping, r) && Family(pt, init) && AllTidy(pt)
    requires IsIn(pt, x, Zombie) || IsIn(pt, x, Running)
    requires x != init && NoKids(pt, x)
    ensures var pt' := pt[x := Freed(pt[x])];
      Placed(pt', ready, sleeping, if x == r then NIL else r) && Family(pt', init) && AllTidy(pt')
  {
    PlacedNowhere(pt, ready, sleeping, r, x, Freed(pt[x]));
    var pt1 := pt[x := pt[x].(state := Unused)];
    FamilyGone(pt, init, x, Unused);
    FamilyMinor(pt1, init, x, Freed(pt[x]));
    assert pt1[x := Freed(pt[x])] == pt[x := Freed(pt[x])];
    TidyOne(pt, x, Freed(pt[x]));
  }

  /** The state in which y has been told about x and x's slot is free. */
  lemma InvTold(s: St, r: int, y: int, x: int)
    requires Inv(s, r) && Slot(s.pt, y) && Live(s.pt, x) && x != y
    ensures Inv(s.(pt := s.pt[y := Told(s.pt[y], s.pt[x])]), r)
  {
    InvMinor(s, r, y, Told(s.pt[y], s.pt[x]));
  }

  /** sys_wait() reaps x for the running y, and leaves its queue entry behind. */
  lemma InvReapStale(s: St, r: int, y: int, x: int)
    requires Inv(s, r) && IsIn(s.pt, y, Running) && IsIn(s.pt, x, Zombie)
    ensures var s1 := Cleanup(StatusReturn(s, y, x), x);
      Inv(s1.(hist := s1.hist.(stale := s1.hist.stale + multiset{x})), r)
  {
    assert Tidy(s.pt, x);
    CleanupIs(s, y, x);
    InvTold(s, r, y, x);
    var pt1 := s.pt[y := Told(s.pt[y], s.pt[x])];
    var s1 := Cleanup(StatusReturn(s, y, x), x);
    var h1 := s1.hist;
    ZombieChildless(pt1, s.init, x);
    FreedPlaces(pt1, s.ready, s.sleeping, r, s.init, x);
    ZombieLawLeave(pt1, s.zombie, s.hist.stale, x, Freed(pt1[x]));
    AccountedReap(pt1, x, Freed(pt1[x]), s.hist, s.pt[y].pid);
    AccountedHist(s1.pt, h1, h1.(stale := h1.stale + multiset{x}));
    assert OnCpu(s.pt, x, r);
  }

  /** sys_exit() hands the zombie x to a waiting y and does take it out of the queue. */
  lemma InvReapQueued(s: St, r: int, y: int, x: int)
    requires Inv(s, r) && IsIn(s.pt, y, Waiting) && IsIn(s.pt, x, Zombie)
    ensures x in s.zombie
    ensures var s0 := s.(zombie := RemoveFirst(s.zombie, x), mem := FreeQnode(s.mem));
      Inv(Cleanup(StatusReturn(s0, y, x), x), r)
  {
    assert Tidy(s.pt, x);
    InvTold(s, r, y, x);
    var pt1 := s.pt[y := Told(s.pt[y], s.pt[x])];
    ZombieChildless(pt1, s.init, x);
    FreedPlaces(pt1, s.ready, s.sleeping, r, s.init, x);
    ZombieLawDequeue(pt1, s.zombie, s.hist.stale, x, Freed(pt1[x]));
    AccountedReap(pt1, x, Freed(pt1[x]), s.hist, s.pt[y].pid);
    RemoveFirstOcc(s.zombie, x, x);
    assert OnCpu(s.pt, x, r);
    CleanupIs(s.(zombie := RemoveFirst(s.zombie, x), mem := FreeQnode(s.mem)), y, x);
  }

  /** sys_exit() of the running x with a waiting parent y: reported at once. */
  lemma InvReapDirect(s: St, y: int, x: int)
    requires Inv(s, x) && IsIn(s.pt, y, Waiting) && IsIn(s.pt, x, Running) && x != s.init && NoKids(s.pt, x)
    ensures var s0 := s.(hist := s.hist.(exits := s.hist.exits + [Exited(s.pt[x].pid, s.pt[x].status)]));
      Inv(Cleanup(StatusReturn(s0, y, x), x), NIL)
  {
    assert Tidy(s.pt, x);
    InvTold(s, x, y, x);
    var pt1 := s.pt[y := Told(s.pt[y], s.pt[x])];
    NoKidsMinor(s.pt, y, Told(s.pt[y], s.pt[x]), x);
    FreedPlaces(pt1, s.ready, s.sleeping, x, s.init, x);
    ZombieLawSame(pt1, pt1[x := Freed(pt1[x])], s.zombie, s.hist.stale);
    AccountedDirect(pt1, x, Freed(pt1[x]), s.hist, s.pt[y].pid);
    CleanupIs(s.(hist := s.hist.(exits := s.hist.exits + [Exited(s.pt[x].pid, s.pt[x].status)])), y, x);
  }

  lemma NoKidsMinor(pt: seq<Pcb>, y: int, c: Pcb, x: int)
    requires NoKids(pt, x) && Slot(pt, y) && c.state == pt[y].state && c.parent == pt[y].parent
    ensures NoKids(pt[y := c], x)
  {
    var pt' := pt[y := c];
    forall k: int ensures !ChildOf(pt', k, x) { assert !ChildOf(pt, k, x); }
  }

  /** sys_exit() of the running x whose parent is busy: a zombie is left. */
  lemma InvZombify(s: St, x: int)
    requires Inv(s, x) && IsIn(s.pt, x, Running) && x != s.init && NoKids(s.pt, x)
    ensures var s0 := s.(hist := s.hist.(exits := s.hist.exits + [Exited(s.pt[x].pid, s.pt[x].status)]));
      Zombify(s0, x).Next? ==> Inv(Zombify(s0, x).s, NIL)
  {
    var s0 := s.(hist := s.hist.(exits := s.hist.exits + [Exited(s.pt[x].pid, s.pt[x].status)]));
    if Zombify(s0, x).Next? {
      var c := s.pt[x].(state := Zombie);
      assert Tidy(s.pt, x);
      PlacedNowhere(s.pt, s.ready, s.sleeping, x, x, c);
      FamilyGone(s.pt, s.init, x, Zombie);
      ZombieLawAdd(s.pt, s.zombie, s.hist.stale, x, c);
      AccountedZombie(s.pt, x, c, s.hist);
      TidyOne(s.pt, x, c);
      TakeQnodeCounts(s.mem);
    }
  }

  /** sys_exit()'s reparenting loop. */
  lemma InvAdopt(s: St, r: int, x: int)
    requires Inv(s, r) && x != s.init
    ensures var s' := s.(pt := Adopt(s.pt, x, s.init)); Inv(s', r) && NoKids(s'.pt, x)
  {
    var pt' := Adopt(s.pt, x, s.init);
    PlacedSame(s.pt, pt', s.ready, s.sleeping, r);
    var rank :| Tree(s.pt, s.init, rank);
    TreeAdopt(s.pt, s.init, rank, x);
    ZombieLawSame(s.pt, pt', s.zombie, s.hist.stale);
    AccountedSame(s.pt, pt', s.hist);
    forall p: int ensures Tidy(pt', p) { assert Tidy(s.pt, p); }
  }

  /** sys_wait() blocks. */
  lemma InvBlock(s: St, x: int)
    requires Inv(s, x) && IsIn(s.pt, x, Running)
    ensures Inv(s.(pt := s.pt[x := s.pt[x].(state := Waiting)]), NIL)
  {
    var c := s.pt[x].(state := Waiting);
    assert Tidy(s.pt, x);
    PlacedNowhere(s.pt, s.ready, s.sleeping, x, x, c);
    FamilyAlive(s.pt, s.init, x, Waiting);
    ZombieLawSame(s.pt, s.pt[x := c], s.zombie, s.hist.stale);
    AccountedOne(s.pt, x, c, s.hist);
    TidyOne(s.pt, x, c);
  }

  /** sys_sleep() blocks. */
  lemma InvSleep(s: St, x: int, c: Pcb, keys: seq<nat>)
    requires Inv(s, x) && IsIn(s.pt, x, Running) && TakeQnode(s.mem).Some?
    requires exists w: nat :: c == s.pt[x].(state := Sleeping, wakeup := w)
    ensures Inv(s.(pt := s.pt[x := c], sleeping := Insert(s.sleeping, x, ByWakeup, keys),
                   mem := TakeQnode(s.mem).value), NIL)
  {
    assert Tidy(s.pt, x);
    PlacedSleep(s.pt, s.ready, s.sleeping, x, x, c, keys);
    FamilyAlive(s.pt, s.init, x, Sleeping);
    FamilyMinor(s.pt[x := s.pt[x].(state := Sleeping)], s.init, x, c);
    assert s.pt[x := s.pt[x].(state := Sleeping)][x := c] == s.pt[x := c];
    ZombieLawSame(s.pt, s.pt[x := c], s.zombie, s.hist.stale);
    AccountedOne(s.pt, x, c, s.hist);
    TidyOne(s.pt, x, c);
    TakeQnodeCounts(s.mem);
    InsertOcc(s.sleeping, x, ByWakeup, keys, x);
  }

  /** One turn of clk_isr's wake loop. */
  function Woken(s: St): Outcome
    requires |s.ready| == N_PRIOS && s.sleeping != []
  {
    Schedule(s.(sleeping := s.sleeping[1..], mem := FreeQnode(s.mem)), s.sleeping[0])
  }

  lemma InvWoken(s: St, r: int)
    requires Inv(s, r) && s.sleeping != []
    ensures IsIn(s.pt, s.sleeping[0], Sleeping)
    ensures Woken(s).Next? && Inv(Woken(s).s, r)
    ensures Woken(s).s.mem == s.mem
  {
    var x := s.sleeping[0];
    PlacedWake(s.pt, s.ready, s.sleeping, r);
    assert Tidy(s.pt, x);
    var s' := Woken(s).s;
    FamilyAlive(s.pt, s.init, x, Ready);
    ZombieLawSame(s.pt, s'.pt, s.zombie, s.hist.stale);
    AccountedOne(s.pt, x, s.pt[x].(state := Ready), s.hist);
    TidyOne(s.pt, x, s.pt[x].(state := Ready));
  }

  /** fork() puts the child in the unused slot n and on its ready queue. */
  lemma FamilyFork(pt: seq<Pcb>, init: int, n: int, c: Pcb)
    requires Family(pt, init) && Slot(pt, n) && !Live(pt, n)
    requires Live(pt, c.parent) && pt[c.parent].state != Zombie && c.state != Unused
    ensures Family(pt[n := c], init)
  {
    var rank :| Tree(pt, init, rank);
    TreeFork(pt, init, rank, n, c);
  }

  lemma InvForkChild(s: St, r: int, n: int, c: Pcb, f: Fork, m: Mem)
    requires Inv(s, r) && Slot(s.pt, n) && s.pt[n].state == Unused && c.state == New
    requires IsIn(s.pt, c.parent, Running) && c.priority < N_PRIOS && c.stack != 0 && f.child == c.pid
    requires m.qfree == s.mem.qfree && m.qpages == s.mem.qpages
    ensures var s1 := s.(pt := s.pt[n := c], nextPid := Wrap32(s.nextPid + 1), mem := m,
                         hist := s.hist.(forks := s.hist.forks + [f]));
      Schedule(s1, n).Next? ==> Inv(Schedule(s1, n).s, r)
  {
    var s1 := s.(pt := s.pt[n := c], nextPid := Wrap32(s.nextPid + 1), mem := m,
                 hist := s.hist.(forks := s.hist.forks + [f]));
    if Schedule(s1, n).Next? {
      var s' := Schedule(s1, n).s;
      var c' := c.(state := Ready);
      assert s'.pt == s.pt[n := c'];
      assert OnCpu(s.pt, n, r);
      PlacedNowhere(s.pt, s.ready, s.sleeping, r, n, c);
      PlacedReady(s1.pt, s.ready, s.sleeping, r, n);
      FamilyFork(s.pt, s.init, n, c');
      ZombieLawSame(s.pt, s'.pt, s.zombie, s.hist.stale);
      AccountedFork(s.pt, n, c', s.hist, f);
      TidyOne(s.pt, n, c');
      TakeQnodeCounts(m);
    }
  }
}
