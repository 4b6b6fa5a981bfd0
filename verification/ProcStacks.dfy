/**
 Stacks over whole runs.  Every stack has exactly one owner until an exec is granted a
 stack; that exec breaks this at once, and the next fork shows it.
 */
module ProcStacks {
  import opened Wrappers
  import opened QueueSpec
  import opened PageList
  import opened Sequences
  import opened ProcSpec
  import opened ProcSched
  import opened ProcFamily
  import opened ProcMem
  import opened ProcInv
  import opened ProcExit
  import opened ProcSteps

  ghost predicate MemInv(pt: seq<Pcb>, m: Mem, arena: set<nat>) {
    PagesLaw(m, arena) && StacksLaw(pt, m)
  }

  lemma MemQnode(pt: seq<Pcb>, m: Mem, arena: set<nat>)
    requires MemInv(pt, m, arena) && TakeQnode(m).Some?
    ensures MemInv(pt, TakeQnode(m).value, arena)
  {
    PagesTakeQnode(m, arena);
    StacksSame(pt, pt, m, TakeQnode(m).value);
  }

  lemma MemFreeQnode(pt: seq<Pcb>, m: Mem, arena: set<nat>)
    requires MemInv(pt, m, arena)
    ensures MemInv(pt, FreeQnode(m), arena)
  {
    StacksSame(pt, pt, m, FreeQnode(m));
  }

  lemma MemOne(pt: seq<Pcb>, m: Mem, arena: set<nat>, x: int, c: Pcb)
    requires MemInv(pt, m, arena) && Slot(pt, x) && Holding(c) == Holding(pt[x])
    ensures MemInv(pt[x := c], m, arena)
  {
    StacksSame(pt, pt[x := c], m, m);
  }

  lemma MemSchedule(s: St, x: int, arena: set<nat>)
    requires MemInv(s.pt, s.mem, arena) && |s.ready| == N_PRIOS && Live(s.pt, x) && Schedule(s, x).Next?
    ensures MemInv(Schedule(s, x).s.pt, Schedule(s, x).s.mem, arena)
  {
    MemQnode(s.pt, s.mem, arena);
    MemOne(s.pt, TakeQnode(s.mem).value, arena, x, s.pt[x].(state := Ready));
  }

  lemma MemDispatch(s: St, arena: set<nat>)
    requires Inv(s, NIL) && MemInv(s.pt, s.mem, arena) && Dispatch(s).Next?
    ensures MemInv(Dispatch(s).s.pt, Dispatch(s).s.mem, arena)
  {
    var i := TopLevel(s.ready);
    var x := s.ready[i][0];
    HeadOcc(s.ready[i], x);
    assert InPlace(s.pt, s.ready, s.sleeping, x);
    MemFreeQnode(s.pt, s.mem, arena);
    MemOne(s.pt, FreeQnode(s.mem), arena, x, s.pt[x].(state := Running, quantum := Q_STD));
  }

  lemma MemReap(s: St, y: int, x: int, arena: set<nat>)
    requires MemInv(s.pt, s.mem, arena) && Slot(s.pt, y) && Live(s.pt, x) && x != y && s.pt[x].stack != 0
    ensures var s' := Cleanup(StatusReturn(s, y, x), x); MemInv(s'.pt, s'.mem, arena)
  {
    CleanupIs(s, y, x);
    var c := Told(s.pt[y], s.pt[x]);
    MemOne(s.pt, s.mem, arena, y, c);
    StacksCleanup(s.pt[y := c], s.mem, x, Freed(s.pt[x]));
  }

  lemma MemWakeInit(s: St, p: int, z: int, arena: set<nat>)
    requires Inv(s, p) && IsIn(s.pt, s.init, Waiting) && IsIn(s.pt, z, Zombie) && WakeInit(s, z).Next?
    requires MemInv(s.pt, s.mem, arena)
    ensures MemInv(WakeInit(s, z).s.pt, WakeInit(s, z).s.mem, arena)
  {
    var s0 := s.(zombie := RemoveFirst(s.zombie, z), mem := FreeQnode(s.mem));
    var sr := StatusReturn(s0, s.init, z);
    assert Tidy(s.pt, z);
    CleanupCommutes(sr, z, s.init);
    MemFreeQnode(s.pt, s.mem, arena);
    MemReap(s0, s.init, z, arena);
    CleanupIs(s0, s.init, z);
    MemSchedule(Cleanup(sr, z), s.init, arena);
  }

  lemma MemFinish(s: St, p: int, parent: int, arena: set<nat>)
    requires Inv(s, p) && IsIn(s.pt, p, Running) && Slot(s.pt, parent) && parent != p && Finish(s, p, parent).Next?
    requires MemInv(s.pt, s.mem, arena)
    ensures MemInv(Finish(s, p, parent).s.pt, Finish(s, p, parent).s.mem, arena)
  {
    var s0 := s.(hist := s.hist.(exits := s.hist.exits + [Exited(s.pt[p].pid, s.pt[p].status)]));
    assert Tidy(s.pt, p);
    if s.pt[parent].state == Waiting {
      var sr := StatusReturn(s0, parent, p);
      CleanupCommutes(sr, p, parent);
      MemReap(s0, parent, p, arena);
      CleanupIs(s0, parent, p);
      MemSchedule(Cleanup(sr, p), parent, arena);
    } else {
      MemQnode(s.pt, s.mem, arena);
      MemOne(s.pt, TakeQnode(s.mem).value, arena, p, s.pt[p].(state := Zombie));
    }
  }

  lemma MemBequeath(s: St, status: Word, arena: set<nat>)
    requires Good(s) && s.current != s.init && MemInv(s.pt, s.mem, arena)
    ensures WellFormed(s) && Bequeath(s, status).Next?
    ensures MemInv(Bequeath(s, status).s.pt, Bequeath(s, status).s.mem, arena)
  {
    CurrentRuns(s);
    BequeathGood(s, status);
    var p := s.current;
    var c := s.pt[p].(status := Wrap32(status));
    InvMinor(s, p, p, c);
    MemOne(s.pt, s.mem, arena, p, c);
    var s0 := s.(pt := s.pt[p := c]);
    InvAdopt(s0, p, p);
    var s1 := s0.(pt := Adopt(s0.pt, p, s.init));
    StacksSame(s0.pt, s1.pt, s.mem, s.mem);
    var z := LastDeadChild(s0.pt, p, |s0.pt|);
    if z != NIL && s1.pt[s.init].state == Waiting { MemWakeInit(s1, p, z, arena); }
  }

  lemma MemExit(s: St, status: Word, arena: set<nat>)
    requires Good(s) && WellFormed(s) && Exit(s, status).Next? && MemInv(s.pt, s.mem, arena)
    ensures MemInv(Exit(s, status).s.pt, Exit(s, status).s.mem, arena)
  {
    ExitIs(s, status);
    MemBequeath(s, status, arena);
    BequeathGood(s, status);
    var p, s2, parent := s.current, Bequeath(s, status).s, s.pt[s.current].parent;
    FinishGood(s2, p, parent);
    MemFinish(s2, p, parent, arena);
    MemDispatch(Finish(s2, p, parent).s, arena);
  }

  lemma MemWait(s: St, ptr: Word, arena: set<nat>)
    requires Good(s) && WellFormed(s) && Wait(s, ptr).Next? && MemInv(s.pt, s.mem, arena)
    ensures MemInv(Wait(s, ptr).s.pt, Wait(s, ptr).s.mem, arena)
  {
    CurrentRuns(s);
    var p := s.current;
    var z := FirstDeadChild(s.pt, p, 0);
    if z != NIL {
      assert Tidy(s.pt, z);
      MemReap(s, p, z, arena);
    } else if exists c :: 0 <= c < |s.pt| && ChildOf(s.pt, c, p) {
      InvBlock(s, p);
      MemOne(s.pt, s.mem, arena, p, s.pt[p].(state := Waiting));
      MemDispatch(s.(pt := s.pt[p := s.pt[p].(state := Waiting)]), arena);
    } else {
      MemOne(s.pt, s.mem, arena, p, s.pt[p].(ret := S_NO_CHILD));
    }
  }

  lemma MemForked(s: St, prio: Word, n: int, arena: set<nat>)
    requires Slot(s.pt, s.current) && |s.ready| == N_PRIOS && MemInv(s.pt, s.mem, arena)
    requires Slot(s.pt, n) && s.pt[n].state == Unused && StackGranted(s.mem) != 0
    ensures var r := Schedule(WithChild(s, n, prio), n);
      r.Next? ==> MemInv(r.s.pt, r.s.mem, arena)
  {
    var c := ChildPcb(s, StackGranted(s.mem), prio);
    var s2 := WithChild(s, n, prio);
    assert MemInv(s2.pt, s2.mem, arena) by {
      PagesTakeStack(s.mem, arena);
      StacksFork(s.pt, s.mem, n, c);
    }
    if Schedule(s2, n).Next? { MemSchedule(s2, n, arena); }
  }

  /** fork(): on failure nothing changes hands, on success the child owns its stack. */
  lemma MemFork(s: St, prio: Word, arena: set<nat>)
    requires Good(s) && WellFormed(s) && DoFork(s, prio).Next? && MemInv(s.pt, s.mem, arena)
    ensures MemInv(DoFork(s, prio).s.pt, DoFork(s, prio).s.mem, arena)
  {
    CurrentRuns(s);
    var n := FirstUnused(s.pt, 0);
    if n == |s.pt| || StackGranted(s.mem) == 0 {
      MemOne(s.pt, s.mem, arena, s.current, s.pt[s.current].(ret := S_ERROR));
    } else {
      MemOne(s.pt, s.mem, arena, s.current, s.pt[s.current].(ret := ForkReturn(s)));
      MemForked(Returns(s, ForkReturn(s)), prio, n, arena);
    }
  }

  lemma MemYield(s: St, arena: set<nat>)
    requires Inv(s, s.current) && s.current != NIL && NoLostWakeup(s.pt) && MemInv(s.pt, s.mem, arena)
    ensures WellFormed(s)
    ensures Yield(s).Next? ==> MemInv(Yield(s).s.pt, Yield(s).s.mem, arena)
  {
    CurrentRuns(s);
    if Yield(s).Next? {
      InvSchedule(s, s.current, s.current);
      MemSchedule(s, s.current, arena);
      MemDispatch(Schedule(s, s.current).s, arena);
    }
  }

  lemma MemAsleep(s: St, n: Word, arena: set<nat>)
    requires Good(s) && Slot(s.pt, s.current) && TakeQnode(s.mem).Some? && MemInv(s.pt, s.mem, arena)
    ensures MemInv(Asleep(s, n).pt, Asleep(s, n).mem, arena)
  {
    CurrentRuns(s);
    MemQnode(s.pt, s.mem, arena);
    MemOne(s.pt, TakeQnode(s.mem).value, arena, s.current, Sleeper(s, n));
  }

  lemma MemSleep(s: St, n: Word, arena: set<nat>)
    requires Good(s) && WellFormed(s) && Sleep(s, n).Next? && MemInv(s.pt, s.mem, arena)
    ensures MemInv(Sleep(s, n).s.pt, Sleep(s, n).s.mem, arena)
  {
    if n == 0 {
      MemYield(s, arena);
    } else {
      var a := SleepIs(s, n);
      MemAsleep(s, n, arena);
      MemDispatch(a, arena);
    }
  }

  lemma {:induction false} MemWakeAll(s: St, arena: set<nat>)
    requires Good(s) && MemInv(s.pt, s.mem, arena)
    ensures |s.ready| == N_PRIOS && WakeAll(s).Next? && MemInv(WakeAll(s).s.pt, WakeAll(s).s.mem, arena)
    decreases |s.sleeping|
  {
    WakeAllGood(s);
    if s.sleeping != [] && KeyOf(Wakeups(s.pt), s.sleeping[0]) <= s.time {
      WokenGood(s);
      MemWoken(s, arena);
      MemWakeAll(Woken(s).s, arena);
    }
  }

  lemma MemWoken(s: St, arena: set<nat>)
    requires Good(s) && MemInv(s.pt, s.mem, arena) && s.sleeping != []
    ensures Woken(s).Next? && MemInv(Woken(s).s.pt, Woken(s).s.mem, arena)
  {
    WokenGood(s);
    InvWoken(s, s.current);
    var x := s.sleeping[0];
    MemOne(s.pt, s.mem, arena, x, s.pt[x].(state := Ready));
  }

  lemma MemOlder(s: St, arena: set<nat>)
    requires Slot(s.pt, s.current) && s.pt[s.current].quantum > 0 && MemInv(s.pt, s.mem, arena)
    ensures MemInv(Older(s).pt, Older(s).mem, arena)
  {
    MemOne(s.pt, s.mem, arena, s.current, s.pt[s.current].(quantum := s.pt[s.current].quantum - 1));
  }

  lemma MemExpire(s: St, arena: set<nat>)
    requires Good(s) && WellFormed(s) && Expire(s).Next? && MemInv(s.pt, s.mem, arena)
    ensures MemInv(Expire(s).s.pt, Expire(s).s.mem, arena)
  {
    ExpireIs(s);
    OlderGood(s);
    MemOlder(s, arena);
    if s.pt[s.current].quantum == 1 { MemYield(Older(s), arena); }
  }

  lemma MemTick(s: St, arena: set<nat>)
    requires Good(s) && WellFormed(s) && Tick(s).Next? && MemInv(s.pt, s.mem, arena)
    ensures MemInv(Tick(s).s.pt, Tick(s).s.mem, arena)
  {
    var s0, s1 := TickInto(s);
    MemWakeAll(s0, arena);
    MemExpire(s1, arena);
  }

  lemma MemReturns(s: St, v: int, arena: set<nat>)
    requires Slot(s.pt, s.current) && MemInv(s.pt, s.mem, arena)
    ensures MemInv(Returns(s, v).pt, Returns(s, v).mem, arena)
  {
    MemOne(s.pt, s.mem, arena, s.current, s.pt[s.current].(ret := v));
  }

  lemma MemCalled(s: St, a: Word, arena: set<nat>)
    requires Slot(s.pt, s.current) && MemInv(s.pt, s.mem, arena)
    ensures MemInv(Called(s, a).pt, Called(s, a).mem, arena)
  {
    MemOne(s.pt, s.mem, arena, s.current, s.pt[s.current].(arg := a));
  }

  lemma MemOther(s: St, code: int, arg: Word, arg3: Word, io: int, arena: set<nat>)
    requires WellFormed(s) && MemInv(s.pt, s.mem, arena) && code in {4, 5, 7, 8, 9}
    requires System(s, code, arg, arg3, io).Next?
    ensures var s' := System(s, code, arg, arg3, io).s; MemInv(s'.pt, s'.mem, arena)
  {
    var s1 := Called(s, arg);
    MemCalled(s, arg, arena);
    var v :| System(s, code, arg, arg3, io).s == Returns(s1, v);
    MemReturns(s1, v, arena);
  }

  // ---- exec -------------------------------------------------------------------------------

  lemma {:induction false} HeldMember(pt: seq<Pcb>, p: int)
    requires Live(pt, p)
    ensures Held(pt)[pt[p].stack] >= 1
  {
    HeldUpdate(pt, p, pt[p]);
  }

  /** After a successful exec the old stack is both the caller's and on the free list, so the
      ownership law holds after exec if and only if exec failed. */
  lemma ExecBreaksOwnership(s: St, arena: set<nat>)
    requires Good(s) && MemInv(s.pt, s.mem, arena)
    ensures WellFormed(s)
    ensures MemInv(Exec(s).pt, Exec(s).mem, arena) <==> StackGranted(s.mem) == 0
  {
    CurrentRuns(s);
    var p := s.current;
    if StackGranted(s.mem) == 0 {
      MemReturns(s, S_ERROR, arena);
    } else {
      assert Tidy(s.pt, p);
      var s' := Exec(s);
      var stk := s.pt[p].stack;
      assert s'.mem.stkHead == stk && s'.pt[p].stack == stk && Live(s'.pt, p);
      PagesTakeStack(s.mem, arena);
      forall xs: seq<nat> | Chain(s'.mem.stkHead, s'.mem.link, xs) && Separate(s'.mem.stacks)
        ensures !Owners(s'.pt, s'.mem, xs)
      {
        HeldMember(s'.pt, p);
        SeparateOnce(s'.mem.stacks);
        assert xs[0] == stk;
        OwnedTwice(s'.mem, Held(s'.pt), xs, stk);
      }
    }
  }

  lemma OwnedTwice(m: Mem, held: multiset<int>, xs: seq<nat>, a: nat)
    requires held[a] >= 1 && a in xs && forall x :: multiset(m.stacks)[x] <= 1
    ensures multiset(m.stacks) != multiset{m.kstack} + held + multiset(xs)
  {
    var all: multiset<int> := multiset(m.stacks);
    var free: multiset<int> := multiset(xs);
    var k: multiset<int> := multiset{m.kstack};
    assert free[a] >= 1;
    assert (k + held + free)[a] >= 2;
  }

  // ---- steps and runs ---------------------------------------------------------------------

  /** This event is an exec that is granted a new stack. */
  predicate ExecGranted(s: St, e: Event) { e.Trap? && e.code == 3 && StackGranted(s.mem) != 0 }

  /** Every step but one keeps pages and stacks accounted for, and that one never does. */
  lemma MemStep(s: St, e: Event, arena: set<nat>)
    requires Good(s) && MemInv(s.pt, s.mem, arena) && Step(s, e).Next?
    ensures MemInv(Step(s, e).s.pt, Step(s, e).s.mem, arena) <==> !ExecGranted(s, e)
  {
    CurrentRuns(s);
    match e
    case ClockTick => MemTick(s, arena);
    case Trap(code, arg, arg3, io) =>
      var bad := code < 0 || code >= 10;
      var a: Word := if bad then S_BAD_SYSCALL + TWO_32 else arg;
      CalledGood(s, a);
      MemCalled(s, a, arena);
      var s1 := Called(s, a);
      if bad || code == 0 { MemExit(s1, a, arena); }
      else if code == 1 { MemWait(s1, a, arena); }
      else if code == 2 { MemFork(s1, a, arena); }
      else if code == 3 { ExecBreaksOwnership(s1, arena); }
      else if code == 6 { MemSleep(s1, a, arena); }
      else { MemOther(s, code, arg, arg3, io, arena); }
  }

  /** No exec of this run is granted a stack: all of them, if there are any, fail. */
  predicate NoExecGranted(s: St, es: seq<Event>)
    decreases |es|
  {
    es == [] || (!ExecGranted(s, es[0]) && (Step(s, es[0]).Next? ==> NoExecGranted(Step(s, es[0]).s, es[1..])))
  }

  /** What the run-level law means: any two of the live processes, the kernel and the free
      stacks have disjoint two-page stacks, and none of those pages is free or holds qnodes. */
  lemma StacksDisjoint(pt: seq<Pcb>, m: Mem, arena: set<nat>, p: int, q: int)
    requires MemInv(pt, m, arena) && Live(pt, p) && Live(pt, q) && p != q
    ensures Span(pt[p].stack, STACK_PAGES) !! Span(pt[q].stack, STACK_PAGES)
    ensures Span(pt[p].stack, STACK_PAGES) !! Span(m.kstack, STACK_PAGES)
    ensures Span(pt[p].stack, STACK_PAGES) <= arena - PageSet(m.free) - Numbers(m.qpages)
  {
    var xs :| Owners(pt, m, xs);
    OwnersDistinct(pt, m, xs, p, q);
    OwnersDistinct(pt, m, xs, q, p);
    assert m.kstack in multiset(m.stacks);
    var i :| 0 <= i < |m.stacks| && m.stacks[i] == pt[p].stack;
    var j :| 0 <= j < |m.stacks| && m.stacks[j] == pt[q].stack;
    var k :| 0 <= k < |m.stacks| && m.stacks[k] == m.kstack;
    SpansHold(m.stacks, i);
    assert i < j || j < i;
    assert i < k || k < i;
  }

  /** The consequence: if a process that has called exec forks next, parent and child PCBs name
      the same stack, and the parent gets the child's 0 back. */
  lemma ForkAfterExecSharesStack(s: St, prio: Word)
    requires Good(s) && StackGranted(s.mem) != 0
    ensures WellFormed(s) && WellFormed(Exec(s))
    ensures var s1 := Exec(s); var n := FirstUnused(s1.pt, 0); var r := DoFork(s1, prio);
      r.Next? && n < |s.pt| ==>
        && Live(r.s.pt, s.current) && Live(r.s.pt, n) && n != s.current
        && r.s.pt[n].stack == r.s.pt[s.current].stack && r.s.pt[s.current].ret == 0
  {
    CurrentRuns(s);
    ExecGood(s);
    var s1 := Exec(s);
    CurrentRuns(s1);
    assert Tidy(s.pt, s.current);
  }
}
