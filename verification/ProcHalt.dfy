/**
 When does the kernel stop?  `HaltReason` reads the answer off the state before the
 step: no other assertion or panic in the modelled code can fire.
 */
module ProcHalt {
  import opened Wrappers
  import opened QueueSpec
  import opened PageList
  import opened ProcSpec
  import opened ProcFamily
  import opened ProcInv
  import opened ProcExit
  import opened ProcSteps

  /** The qnode pool is empty and there is no page to refill it. */
  predicate NoRoom(m: Mem) { m.qfree == 0 && GrantBase(m.free, 1) == 0 }

  predicate NobodyQueued(s: St)
    requires |s.ready| == N_PRIOS
  {
    s.ready[0] == [] && s.ready[1] == [] && s.ready[2] == []
  }

  /** Some process is made ready by the exit of the running one. */
  predicate ExitWakes(s: St)
    requires WellFormed(s)
  {
    IsIn(s.pt, s.pt[s.current].parent, Waiting)
    || (IsIn(s.pt, s.init, Waiting) && LastDeadChild(s.pt, s.current, |s.pt|) != NIL)
  }

  function ExitHalts(s: St): Option<Reason>
    requires WellFormed(s)
  {
    if s.current == s.init then Some(InitExits)
    else if NoRoom(s.mem) then Some(NoMemory)
    else if NobodyQueued(s) && !ExitWakes(s) then Some(NobodyReady)
    else None
  }

  function WaitHalts(s: St): Option<Reason>
    requires WellFormed(s)
  {
    if FirstDeadChild(s.pt, s.current, 0) == NIL && NobodyQueued(s)
       && exists c :: 0 <= c < |s.pt| && ChildOf(s.pt, c, s.current)
    then Some(NobodyReady) else None
  }

  function ForkHalts(s: St, arg: Word): Option<Reason>
    requires WellFormed(s)
  {
    if FirstUnused(s.pt, 0) == |s.pt| || StackGranted(s.mem) == 0 then None
    else if arg % 0x100 >= N_PRIOS && arg % 0x100 != PRIO_INHERIT then Some(BadPriority)
    else if NoRoom(TakeStack(s.mem)) then Some(NoMemory)
    else None
  }

  function SleepHalts(s: St, n: Word): Option<Reason>
    requires WellFormed(s)
  {
    if NoRoom(s.mem) then Some(NoMemory)
    else if n != 0 && NobodyQueued(s) then Some(NobodyReady)
    else None
  }

  function HaltReason(s: St, e: Event): Option<Reason>
    requires WellFormed(s)
  {
    match e
    case ClockTick => if s.pt[s.current].quantum == 1 && NoRoom(s.mem) then Some(NoMemory) else None
    case Trap(code, arg, arg3, io) =>
      if code <= 0 || code >= 10 then ExitHalts(s)
      else if code == 1 then WaitHalts(s)
      else if code == 2 then ForkHalts(s, arg)
      else if code == 4 then (if arg3 != 0 && arg == 1 && io < 1 then Some(ReadBlocks) else None)
      else if code == 6 then SleepHalts(s, arg)
      else if code == 9 then
        var pid := Wrap32(arg);
        (if pid != 0 && pid != s.pt[s.current].pid && pid < FIRST_USER_PID then Some(BadPid) else None)
      else None
  }

  ghost predicate Agrees(r: Outcome, why: Option<Reason>) {
    match why
    case None => r.Next?
    case Some(w) => r == Halted(w)
  }

  // ---- one primitive at a time ---------------------------------------------------------

  lemma ScheduleHalts(s: St, x: int)
    requires |s.ready| == N_PRIOS && Slot(s.pt, x) && s.pt[x].priority < N_PRIOS
    ensures Schedule(s, x).Next? <==> !NoRoom(s.mem)
    ensures NoRoom(s.mem) ==> Schedule(s, x) == Halted(NoMemory)
    ensures Schedule(s, x).Next? ==> !NobodyQueued(Schedule(s, x).s)
  {
  }

  lemma DispatchHalts(s: St)
    requires |s.ready| == N_PRIOS
    ensures Dispatch(s).Next? <==> !NobodyQueued(s)
    ensures NobodyQueued(s) ==> Dispatch(s) == Halted(NobodyReady)
  {
  }

  lemma YieldHalts(s: St)
    requires Inv(s, s.current) && s.current != NIL && NoLostWakeup(s.pt)
    ensures WellFormed(s)
    ensures Agrees(Yield(s), if NoRoom(s.mem) then Some(NoMemory) else None)
  {
    CurrentRuns(s);
    assert Tidy(s.pt, s.current);
    ScheduleHalts(s, s.current);
    if Schedule(s, s.current).Next? { DispatchHalts(Schedule(s, s.current).s); }
  }

  lemma TickHalts(s: St)
    requires Good(s)
    ensures WellFormed(s)
    ensures Agrees(Tick(s), if s.pt[s.current].quantum == 1 && NoRoom(s.mem) then Some(NoMemory) else None)
  {
    TickWakes(s);
    var s1 := WakeAll(s.(time := (s.time + 1) % TWO_32)).s;
    OlderGood(s1);
    YieldHalts(Older(s1));
  }

  lemma WakeInitRoom(s: St, p: int, z: int)
    requires Inv(s, p) && IsIn(s.pt, p, Running) && IsIn(s.pt, s.init, Waiting)
    requires IsIn(s.pt, z, Zombie) && s.pt[z].parent == s.init
    requires AttendedBut(s.pt, s.init) && NoKids(s.pt, p)
    ensures WakeInit(s, z).Next?
    ensures (NoRoom(WakeInit(s, z).s.mem) <==> NoRoom(s.mem)) && !NobodyQueued(WakeInit(s, z).s)
  {
    WakeInitGood(s, p, z);
  }

  lemma {:induction false} DeadChildSame(pt: seq<Pcb>, x: int, c: Pcb, n: nat)
    requires Slot(pt, x) && n <= |pt| && c.state == pt[x].state && c.parent == pt[x].parent
    ensures LastDeadChild(pt[x := c], x, n) == LastDeadChild(pt, x, n)
  {
    if n > 0 {
      DeadChildSame(pt, x, c, n - 1);
      assert ChildOf(pt[x := c], n - 1, x) <==> ChildOf(pt, n - 1, x);
    }
  }

  lemma BequeathRoom(s: St, status: Word)
    requires Good(s) && s.current != s.init
    ensures WellFormed(s) && Bequeath(s, status).Next?
    ensures var s' := Bequeath(s, status).s; var z := LastDeadChild(s.pt, s.current, |s.pt|);
      && (NoRoom(s'.mem) <==> NoRoom(s.mem))
      && (if z != NIL && IsIn(s.pt, s.init, Waiting) then !NobodyQueued(s')
          else s'.ready == s.ready && (forall q: int :: IsIn(s'.pt, q, Waiting) <==> IsIn(s.pt, q, Waiting)))
  {
    CurrentRuns(s);
    BequeathGood(s, status);
    var p := s.current;
    var c := s.pt[p].(status := Wrap32(status));
    DeadChildSame(s.pt, p, c, |s.pt|);
    var pt1 := s.pt[p := c];
    var z := LastDeadChild(pt1, p, |pt1|);
    var s1 := s.(pt := Adopt(pt1, p, s.init));
    if z != NIL && s1.pt[s.init].state == Waiting {
      InvMinor(s, p, p, c);
      NoLostMinorAll(s.pt, p, c);
      InvAdopt(s.(pt := pt1), p, p);
      AdoptAttended(pt1, s.init, p);
      WakeInitRoom(s1, p, z);
    }
  }

  lemma FinishRoom(s: St, p: int, parent: int)
    requires Inv(s, p) && IsIn(s.pt, p, Running) && Live(s.pt, parent) && parent != p
    ensures |s.ready| == N_PRIOS
    ensures Finish(s, p, parent).Next? <==> !NoRoom(s.mem)
    ensures NoRoom(s.mem) ==> Finish(s, p, parent) == Halted(NoMemory)
    ensures Finish(s, p, parent).Next? ==>
              (NobodyQueued(Finish(s, p, parent).s) <==> NobodyQueued(s) && !IsIn(s.pt, parent, Waiting))
  {
    assert Tidy(s.pt, parent);
    var s0 := s.(hist := s.hist.(exits := s.hist.exits + [Exited(s.pt[p].pid, s.pt[p].status)]));
    if s.pt[parent].state == Waiting {
      ScheduleHalts(StatusReturn(s0, parent, p), parent);
    }
  }

  lemma ExitAgrees(s: St, status: Word)
    requires Good(s)
    ensures WellFormed(s)
    ensures Agrees(Exit(s, status), ExitHalts(s))
  {
    ExitIs(s, status);
    if s.current != s.init {
      BequeathGood(s, status);
      BequeathRoom(s, status);
      var s2 := Bequeath(s, status).s;
      var parent := s.pt[s.current].parent;
      FamilyReachesInit(s2.pt, s2.init, s.current);
      FinishRoom(s2, s.current, parent);
      if Finish(s2, s.current, parent).Next? {
        DispatchHalts(Finish(s2, s.current, parent).s);
      }
    }
  }

  lemma WaitAgrees(s: St, ptr: Word)
    requires Good(s)
    ensures WellFormed(s)
    ensures Agrees(Wait(s, ptr), WaitHalts(s))
  {
    CurrentRuns(s);
    DispatchHalts(s.(pt := s.pt[s.current := s.pt[s.current].(state := Waiting)]));
  }

  lemma ForkAgrees(s: St, arg: Word)
    requires Good(s)
    ensures WellFormed(s)
    ensures Agrees(DoFork(s, arg), ForkHalts(s, arg))
  {
    CurrentRuns(s);
    assert Tidy(s.pt, s.current);
  }

  lemma SleepAgrees(s: St, n: Word)
    requires Good(s)
    ensures WellFormed(s)
    ensures Agrees(Sleep(s, n), SleepHalts(s, n))
  {
    CurrentRuns(s);
    if n == 0 {
      YieldHalts(s);
    } else if TakeQnode(s.mem).Some? {
      DispatchHalts(Asleep(s, n));
    }
  }

  /** A call sees the same reasons to halt before and after its argument is stored. */
  lemma CalledSame(s: St, a: Word)
    requires Good(s)
    ensures WellFormed(s) && WellFormed(Called(s, a))
    ensures ExitHalts(Called(s, a)) == ExitHalts(s)
    ensures WaitHalts(Called(s, a)) == WaitHalts(s)
  {
    CurrentRuns(s);
    var c := s.pt[s.current].(arg := a);
    var s' := Called(s, a);
    DeadChildSame(s.pt, s.current, c, |s.pt|);
    FirstDeadSame(s.pt, s.current, c, 0);
    forall k: int ensures ChildOf(s'.pt, k, s.current) <==> ChildOf(s.pt, k, s.current) {}
  }

  lemma {:induction false} FirstDeadSame(pt: seq<Pcb>, x: int, c: Pcb, i: nat)
    requires Slot(pt, x) && i <= |pt| && c.state == pt[x].state && c.parent == pt[x].parent
    ensures FirstDeadChild(pt[x := c], x, i) == FirstDeadChild(pt, x, i)
    decreases |pt| - i
  {
    if i < |pt| { FirstDeadSame(pt, x, c, i + 1); }
  }

  lemma {:induction false} FirstUnusedSame(pt: seq<Pcb>, x: int, c: Pcb, i: nat)
    requires Slot(pt, x) && i <= |pt| && c.state == pt[x].state
    ensures FirstUnused(pt[x := c], i) == FirstUnused(pt, i)
    decreases |pt| - i
  {
    if i < |pt| { FirstUnusedSame(pt, x, c, i + 1); }
  }

  /** The kernel halts in a step exactly when, and for the reason that, HaltReason says. */
  lemma HaltsExactly(s: St, e: Event)
    requires Good(s)
    ensures WellFormed(s)
    ensures Agrees(Step(s, e), HaltReason(s, e))
  {
    CurrentRuns(s);
    match e
    case ClockTick => TickHalts(s);
    case Trap(code, arg, arg3, io) =>
      var bad := code < 0 || code >= 10;
      var a: Word := if bad then S_BAD_SYSCALL + TWO_32 else arg;
      CalledGood(s, a);
      CalledSame(s, a);
      FirstUnusedSame(s.pt, s.current, s.pt[s.current].(arg := a), 0);
      if bad || code == 0 { ExitAgrees(Called(s, a), a); }
      else if code == 1 { WaitAgrees(Called(s, a), a); }
      else if code == 2 { ForkAgrees(Called(s, a), a); }
      else if code == 6 { SleepAgrees(Called(s, a), a); }
  }
}
