/**
 Pages over every run, exec included: free pages, stacks and qnode pages always partition
 the arena.  And a stack that no PCB names and the free list does not hold stays lost.
 */
module ProcPages {
  import opened Wrappers
  import opened QueueSpec
  import opened PageList
  import opened ProcSpec
  import opened ProcMem

  /** r holds every stack the free list's links lead to. */
  ghost predicate Closed(m: Mem, r: set<nat>) {
    0 in r && m.stkHead in r && Within(m.link, r)
  }

  ghost predicate Within(link: map<nat, nat>, r: set<nat>) {
    forall x :: x in r && x != 0 ==> LinkIn(link, x) in r
  }

  /** One more link, from a stack in or outside r, to one in r. */
  lemma WithinMore(link: map<nat, nat>, r: set<nat>, a: nat, v: nat)
    requires Within(link, r) && v in r
    ensures Within(link[a := v], r) && Within(link[a := v], r + {a})
  {
    var link' := link[a := v];
    forall x | x in r + {a} && x != 0 ensures LinkIn(link', x) in r {
      if x != a { assert x in r && LinkIn(link', x) == LinkIn(link, x); }
    }
    forall x | x in r && x != 0 ensures LinkIn(link', x) in r { assert x in r + {a}; }
  }

  /** Stack b was bought, but nobody can name it: not the kernel, not a PCB, not the free list. */
  ghost predicate Lost(pt: seq<Pcb>, m: Mem, b: nat) {
    && b in m.stacks && b != m.kstack
    && (forall p: int :: Slot(pt, p) ==> pt[p].stack != b)
    && exists r: set<nat> :: Closed(m, r) && b !in r
  }

  /** The page law; stack `lost`, unless it is 0, is lost; and the free list, if `whole`, is coalesced. */
  ghost predicate Booked(pt: seq<Pcb>, m: Mem, arena: set<nat>, lost: nat, whole: bool) {
    PagesLaw(m, arena) && (lost != 0 ==> Lost(pt, m, lost)) && (whole ==> Coalesced(m.free))
  }

  // ---- one change at a time -----------------------------------------------------------------

  lemma BookedPool(pt: seq<Pcb>, m: Mem, m': Mem, arena: set<nat>, lost: nat, whole: bool)
    requires Booked(pt, m, arena, lost, whole) && PagesLaw(m', arena) && (whole ==> Coalesced(m'.free))
    requires m'.stacks == m.stacks && m'.kstack == m.kstack && m'.stkHead == m.stkHead && m'.link == m.link
    ensures Booked(pt, m', arena, lost, whole)
  {
    if lost != 0 {
      var r: set<nat> :| Closed(m, r) && lost !in r;
      assert Closed(m', r);
    }
  }

  lemma BookedQnode(pt: seq<Pcb>, m: Mem, arena: set<nat>, lost: nat, whole: bool)
    requires Booked(pt, m, arena, lost, whole) && TakeQnode(m).Some?
    ensures Booked(pt, TakeQnode(m).value, arena, lost, whole)
  {
    PagesTakeQnode(m, arena);
    AllocSorted(m.free, 1);
    BookedPool(pt, m, TakeQnode(m).value, arena, lost, whole);
  }

  lemma BookedFreeQnode(pt: seq<Pcb>, m: Mem, arena: set<nat>, lost: nat, whole: bool)
    requires Booked(pt, m, arena, lost, whole)
    ensures Booked(pt, FreeQnode(m), arena, lost, whole)
  {
    BookedPool(pt, m, FreeQnode(m), arena, lost, whole);
  }

  lemma BookedPcb(pt: seq<Pcb>, m: Mem, arena: set<nat>, lost: nat, whole: bool, x: int, c: Pcb)
    requires Booked(pt, m, arena, lost, whole) && Slot(pt, x) && (c.stack == pt[x].stack || c.stack == 0)
    ensures Booked(pt[x := c], m, arena, lost, whole)
  {
  }

  /** A stack that is lost is never granted again. */
  lemma BookedTake(pt: seq<Pcb>, m: Mem, arena: set<nat>, lost: nat, whole: bool)
    requires Booked(pt, m, arena, lost, whole)
    ensures Booked(pt, TakeStack(m), arena, lost, whole) && (lost != 0 ==> StackGranted(m) != lost)
  {
    PagesTakeStack(m, arena);
    AllocSorted(m.free, STACK_PAGES);
    if lost != 0 {
      var r: set<nat> :| Closed(m, r) && lost !in r;
      if m.stkHead == 0 && StackGranted(m) != 0 { GrantIsNew(m, arena, lost); }
      WithinMore(m.link, r, StackGranted(m), 0);
      assert Closed(TakeStack(m), r);
    }
  }

  lemma GrantIsNew(m: Mem, arena: set<nat>, b: nat)
    requires PagesLaw(m, arena) && b in m.stacks && GrantBase(m.free, STACK_PAGES) != 0
    ensures GrantBase(m.free, STACK_PAGES) != b
  {
    AllocPages(m.free, STACK_PAGES);
    var i :| 0 <= i < |m.stacks| && m.stacks[i] == b;
    SpansHold(m.stacks, i);
    assert b in Span(b, STACK_PAGES);
  }

  lemma BookedGive(pt: seq<Pcb>, m: Mem, arena: set<nat>, lost: nat, whole: bool, x: int)
    requires Booked(pt, m, arena, lost, whole) && Slot(pt, x)
    ensures Booked(pt, GiveStack(m, pt[x].stack), arena, lost, whole)
  {
    if lost != 0 { LostGive(pt, m, lost, pt[x].stack); }
  }

  lemma LostGive(pt: seq<Pcb>, m: Mem, b: nat, stk: nat)
    requires Lost(pt, m, b) && stk != b
    ensures Lost(pt, GiveStack(m, stk), b)
  {
    var r: set<nat> :| Closed(m, r) && b !in r;
    WithinMore(m.link, r, stk, m.stkHead);
    var r' := r + {stk};
    assert Closed(GiveStack(m, stk), r') && b !in r';
  }

  // ---- the steps ------------------------------------------------------------------------------

  lemma BookedSchedule(s: St, x: int, arena: set<nat>, lost: nat, whole: bool)
    requires Booked(s.pt, s.mem, arena, lost, whole) && |s.ready| == N_PRIOS && Schedule(s, x).Next?
    ensures Booked(Schedule(s, x).s.pt, Schedule(s, x).s.mem, arena, lost, whole)
  {
    BookedQnode(s.pt, s.mem, arena, lost, whole);
    BookedPcb(s.pt, TakeQnode(s.mem).value, arena, lost, whole, x, s.pt[x].(state := Ready));
  }

  lemma BookedDispatch(s: St, arena: set<nat>, lost: nat, whole: bool)
    requires Booked(s.pt, s.mem, arena, lost, whole) && |s.ready| == N_PRIOS && Dispatch(s).Next?
    ensures Booked(Dispatch(s).s.pt, Dispatch(s).s.mem, arena, lost, whole)
  {
    BookedFreeQnode(s.pt, s.mem, arena, lost, whole);
    var x := s.ready[TopLevel(s.ready)][0];
    if Slot(s.pt, x) {
      BookedPcb(s.pt, FreeQnode(s.mem), arena, lost, whole, x, s.pt[x].(state := Running, quantum := Q_STD));
    }
  }

  lemma BookedCleanup(s: St, x: int, arena: set<nat>, lost: nat, whole: bool)
    requires Booked(s.pt, s.mem, arena, lost, whole) && Slot(s.pt, x)
    ensures Booked(Cleanup(s, x).pt, Cleanup(s, x).mem, arena, lost, whole)
  {
    BookedGive(s.pt, s.mem, arena, lost, whole, x);
    BookedPcb(s.pt, Cleanup(s, x).mem, arena, lost, whole, x, s.pt[x].(stack := 0, state := Unused));
  }

  lemma BookedStatus(s: St, y: int, x: int, arena: set<nat>, lost: nat, whole: bool)
    requires Booked(s.pt, s.mem, arena, lost, whole) && Slot(s.pt, x) && Slot(s.pt, y)
    ensures Booked(StatusReturn(s, y, x).pt, s.mem, arena, lost, whole)
  {
    BookedPcb(s.pt, s.mem, arena, lost, whole, y, StatusReturn(s, y, x).pt[y]);
  }

  lemma BookedReport(s: St, y: int, x: int, arena: set<nat>, lost: nat, whole: bool)
    requires Booked(s.pt, s.mem, arena, lost, whole) && |s.ready| == N_PRIOS && Slot(s.pt, x) && Slot(s.pt, y)
    requires Schedule(StatusReturn(s, y, x), y).Next?
    ensures var s' := Cleanup(Schedule(StatusReturn(s, y, x), y).s, x); Booked(s'.pt, s'.mem, arena, lost, whole)
  {
    BookedStatus(s, y, x, arena, lost, whole);
    BookedSchedule(StatusReturn(s, y, x), y, arena, lost, whole);
    BookedCleanup(Schedule(StatusReturn(s, y, x), y).s, x, arena, lost, whole);
  }

  lemma BookedWakeInit(s: St, z: int, arena: set<nat>, lost: nat, whole: bool)
    requires Booked(s.pt, s.mem, arena, lost, whole) && Slot(s.pt, s.init) && Slot(s.pt, z) && |s.ready| == N_PRIOS
    requires WakeInit(s, z).Next?
    ensures Booked(WakeInit(s, z).s.pt, WakeInit(s, z).s.mem, arena, lost, whole)
  {
    BookedFreeQnode(s.pt, s.mem, arena, lost, whole);
    BookedReport(s.(zombie := RemoveFirst(s.zombie, z), mem := FreeQnode(s.mem)), s.init, z, arena, lost, whole);
  }

  lemma BookedFinish(s: St, p: int, parent: int, arena: set<nat>, lost: nat, whole: bool)
    requires Booked(s.pt, s.mem, arena, lost, whole) && Slot(s.pt, p) && Slot(s.pt, parent) && |s.ready| == N_PRIOS
    requires Finish(s, p, parent).Next?
    ensures Booked(Finish(s, p, parent).s.pt, Finish(s, p, parent).s.mem, arena, lost, whole)
  {
    if s.pt[parent].state == Waiting {
      var s0 := s.(hist := s.hist.(exits := s.hist.exits + [Exited(s.pt[p].pid, s.pt[p].status)]));
      BookedReport(s0, parent, p, arena, lost, whole);
    } else {
      BookedQnode(s.pt, s.mem, arena, lost, whole);
      BookedPcb(s.pt, TakeQnode(s.mem).value, arena, lost, whole, p, s.pt[p].(state := Zombie));
    }
  }

  lemma BookedExit(s: St, status: Word, arena: set<nat>, lost: nat, whole: bool)
    requires Booked(s.pt, s.mem, arena, lost, whole) && WellFormed(s) && Exit(s, status).Next?
    ensures Booked(Exit(s, status).s.pt, Exit(s, status).s.mem, arena, lost, whole)
  {
    var p, parent := s.current, s.pt[s.current].parent;
    var pt1 := s.pt[p := s.pt[p].(status := Wrap32(status))];
    var z := LastDeadChild(pt1, p, |pt1|);
    var s1 := s.(pt := Adopt(pt1, p, s.init));
    assert Booked(s1.pt, s1.mem, arena, lost, whole);
    var s2 := if z != NIL && s1.pt[s.init].state == Waiting then WakeInit(s1, z).s else s1;
    if z != NIL && s1.pt[s.init].state == Waiting { BookedWakeInit(s1, z, arena, lost, whole); }
    BookedFinish(s2, p, parent, arena, lost, whole);
    BookedDispatch(Finish(s2, p, parent).s, arena, lost, whole);
  }

  lemma BookedWait(s: St, ptr: Word, arena: set<nat>, lost: nat, whole: bool)
    requires Booked(s.pt, s.mem, arena, lost, whole) && WellFormed(s) && Wait(s, ptr).Next?
    ensures Booked(Wait(s, ptr).s.pt, Wait(s, ptr).s.mem, arena, lost, whole)
  {
    var p := s.current;
    var z := FirstDeadChild(s.pt, p, 0);
    if z != NIL {
      BookedStatus(s, p, z, arena, lost, whole);
      BookedCleanup(StatusReturn(s, p, z), z, arena, lost, whole);
    } else if exists c :: 0 <= c < |s.pt| && ChildOf(s.pt, c, p) {
      BookedPcb(s.pt, s.mem, arena, lost, whole, p, s.pt[p].(state := Waiting));
      BookedDispatch(s.(pt := s.pt[p := s.pt[p].(state := Waiting)]), arena, lost, whole);
    } else {
      BookedReturns(s, S_NO_CHILD, arena, lost, whole);
    }
  }

  lemma BookedReturns(s: St, v: int, arena: set<nat>, lost: nat, whole: bool)
    requires Booked(s.pt, s.mem, arena, lost, whole) && Slot(s.pt, s.current)
    ensures Booked(Returns(s, v).pt, s.mem, arena, lost, whole)
  {
    BookedPcb(s.pt, s.mem, arena, lost, whole, s.current, s.pt[s.current].(ret := v));
  }

  /** The child of a fork gets a stack that is not lost. */
  lemma BookedFork(s: St, prio: Word, arena: set<nat>, lost: nat, whole: bool)
    requires Booked(s.pt, s.mem, arena, lost, whole) && WellFormed(s) && DoFork(s, prio).Next?
    ensures Booked(DoFork(s, prio).s.pt, DoFork(s, prio).s.mem, arena, lost, whole)
  {
    var n := FirstUnused(s.pt, 0);
    if n == |s.pt| || StackGranted(s.mem) == 0 {
      BookedReturns(s, S_ERROR, arena, lost, whole);
    } else {
      var s1 := Returns(s, ForkReturn(s));
      BookedReturns(s, ForkReturn(s), arena, lost, whole);
      BookedTake(s1.pt, s.mem, arena, lost, whole);
      var s2 := WithChild(s1, n, prio);
      assert Booked(s2.pt, s2.mem, arena, lost, whole);
      BookedSchedule(s2, n, arena, lost, whole);
    }
  }

  lemma BookedExec(s: St, arena: set<nat>, lost: nat, whole: bool)
    requires Booked(s.pt, s.mem, arena, lost, whole) && Slot(s.pt, s.current)
    ensures Booked(Exec(s).pt, Exec(s).mem, arena, lost, whole)
  {
    if StackGranted(s.mem) == 0 {
      BookedReturns(s, S_ERROR, arena, lost, whole);
    } else {
      BookedTake(s.pt, s.mem, arena, lost, whole);
      BookedGive(s.pt, TakeStack(s.mem), arena, lost, whole, s.current);
      BookedReturns(s.(mem := GiveStack(TakeStack(s.mem), s.pt[s.current].stack)), 0, arena, lost, whole);
    }
  }

  lemma BookedYield(s: St, arena: set<nat>, lost: nat, whole: bool)
    requires Booked(s.pt, s.mem, arena, lost, whole) && WellFormed(s) && Schedule(s, s.current).Next?
    requires Dispatch(Schedule(s, s.current).s).Next?
    ensures var s' := Dispatch(Schedule(s, s.current).s).s; Booked(s'.pt, s'.mem, arena, lost, whole)
  {
    BookedSchedule(s, s.current, arena, lost, whole);
    BookedDispatch(Schedule(s, s.current).s, arena, lost, whole);
  }

  lemma BookedSleep(s: St, n: Word, arena: set<nat>, lost: nat, whole: bool)
    requires Booked(s.pt, s.mem, arena, lost, whole) && WellFormed(s) && Sleep(s, n).Next?
    ensures Booked(Sleep(s, n).s.pt, Sleep(s, n).s.mem, arena, lost, whole)
  {
    if n == 0 {
      BookedYield(s, arena, lost, whole);
    } else {
      var p := s.current;
      var c := s.pt[p].(state := Sleeping, wakeup := (s.time + n) % TWO_32);
      BookedQnode(s.pt, s.mem, arena, lost, whole);
      BookedPcb(s.pt, TakeQnode(s.mem).value, arena, lost, whole, p, c);
      var pt := s.pt[p := c];
      var q := Insert(s.sleeping, p, ByWakeup, Wakeups(pt));
      BookedDispatch(s.(pt := pt, sleeping := q, mem := TakeQnode(s.mem).value), arena, lost, whole);
    }
  }

  lemma {:induction false} BookedWakeAll(s: St, arena: set<nat>, lost: nat, whole: bool)
    requires Booked(s.pt, s.mem, arena, lost, whole) && |s.ready| == N_PRIOS && WakeAll(s).Next?
    ensures Booked(WakeAll(s).s.pt, WakeAll(s).s.mem, arena, lost, whole)
    decreases |s.sleeping|
  {
    if s.sleeping != [] && KeyOf(Wakeups(s.pt), s.sleeping[0]) <= s.time {
      var s0 := s.(sleeping := s.sleeping[1..], mem := FreeQnode(s.mem));
      BookedFreeQnode(s.pt, s.mem, arena, lost, whole);
      BookedSchedule(s0, s.sleeping[0], arena, lost, whole);
      BookedWakeAll(Schedule(s0, s.sleeping[0]).s, arena, lost, whole);
    }
  }

  lemma BookedExpire(s: St, arena: set<nat>, lost: nat, whole: bool)
    requires Booked(s.pt, s.mem, arena, lost, whole) && WellFormed(s) && Expire(s).Next?
    ensures Booked(Expire(s).s.pt, Expire(s).s.mem, arena, lost, whole)
  {
    var c := s.pt[s.current].(quantum := (s.pt[s.current].quantum - 1) % 0x100);
    BookedPcb(s.pt, s.mem, arena, lost, whole, s.current, c);
    if c.quantum < 1 { BookedYield(s.(pt := s.pt[s.current := c]), arena, lost, whole); }
  }

  lemma BookedTick(s: St, arena: set<nat>, lost: nat, whole: bool)
    requires Booked(s.pt, s.mem, arena, lost, whole) && WellFormed(s) && Tick(s).Next?
    ensures Booked(Tick(s).s.pt, Tick(s).s.mem, arena, lost, whole)
  {
    var s0 := s.(time := (s.time + 1) % TWO_32);
    BookedWakeAll(s0, arena, lost, whole);
    BookedExpire(WakeAll(s0).s, arena, lost, whole);
  }

  lemma BookedSystem(s: St, code: int, arg: Word, arg3: Word, io: int, arena: set<nat>, lost: nat, whole: bool)
    requires Booked(s.pt, s.mem, arena, lost, whole) && WellFormed(s) && System(s, code, arg, arg3, io).Next?
    ensures var s' := System(s, code, arg, arg3, io).s; Booked(s'.pt, s'.mem, arena, lost, whole)
  {
    var bad := code < 0 || code >= 10;
    var a: Word := if bad then S_BAD_SYSCALL + TWO_32 else arg;
    var s1 := s.(pt := s.pt[s.current := s.pt[s.current].(arg := a)]);
    BookedPcb(s.pt, s.mem, arena, lost, whole, s.current, s.pt[s.current].(arg := a));
    if bad || code == 0 { BookedExit(s1, a, arena, lost, whole); }
    else if code == 1 { BookedWait(s1, a, arena, lost, whole); }
    else if code == 2 { BookedFork(s1, a, arena, lost, whole); }
    else if code == 3 { BookedExec(s1, arena, lost, whole); }
    else if code == 6 { BookedSleep(s1, a, arena, lost, whole); }
    else {
      var v :| System(s, code, arg, arg3, io).s == Returns(s1, v);
      BookedReturns(s1, v, arena, lost, whole);
    }
  }

  /** Every step keeps the page law, and a lost stack stays lost. */
  lemma BookedStep(s: St, e: Event, arena: set<nat>, lost: nat, whole: bool)
    requires Booked(s.pt, s.mem, arena, lost, whole) && Step(s, e).Next?
    ensures Booked(Step(s, e).s.pt, Step(s, e).s.mem, arena, lost, whole)
  {
    match e
    case ClockTick => BookedTick(s, arena, lost, whole);
    case Trap(code, arg, arg3, io) => BookedSystem(s, code, arg, arg3, io, arena, lost, whole);
  }

  /** So does every run, whatever is called. */
  lemma {:induction false} BookedRun(s: St, es: seq<Event>, arena: set<nat>, lost: nat, whole: bool)
    requires Booked(s.pt, s.mem, arena, lost, whole) && Run(s, es).Next?
    ensures Booked(Run(s, es).s.pt, Run(s, es).s.mem, arena, lost, whole)
    decreases |es|
  {
    if es != [] {
      BookedStep(s, es[0], arena, lost, whole);
      BookedRun(Step(s, es[0]).s, es[1..], arena, lost, whole);
    }
  }
}
