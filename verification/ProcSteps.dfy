/**
 Every step, and so every run, keeps the invariant; and a step halts the kernel in
 exactly the circumstances listed by `HaltReason`.
 */
module ProcSteps {
  import opened Wrappers
  import opened QueueSpec
  import opened ProcSpec
  import opened ProcFamily
  import opened ProcInv
  import opened ProcExit

  lemma ReturnsGood(s: St, v: int)
    requires Good(s)
    ensures Slot(s.pt, s.current) && Good(Returns(s, v))
  {
    InvMinor(s, s.current, s.current, s.pt[s.current].(ret := v));
    NoLostMinorAll(s.pt, s.current, s.pt[s.current].(ret := v));
  }

  lemma FirstDeadIff(pt: seq<Pcb>, p: int)
    ensures FirstDeadChild(pt, p, 0) == NIL <==> NoDeadKids(pt, p)
    ensures FirstDeadChild(pt, p, 0) != NIL ==> DeadChild(pt, FirstDeadChild(pt, p, 0), p)
  {
    var z := FirstDeadChild(pt, p, 0);
    if z == NIL {
      forall c: int ensures !DeadChild(pt, c, p) { assert 0 <= c < |pt| || !Slot(pt, c); }
    } else {
      assert DeadChild(pt, z, p);
    }
  }

  lemma KidIff(pt: seq<Pcb>, p: int)
    ensures (exists c :: 0 <= c < |pt| && ChildOf(pt, c, p)) <==> HasKid(pt, p)
  {
    if HasKid(pt, p) {
      var c: int :| ChildOf(pt, c, p);
      assert 0 <= c < |pt|;
    }
  }

  lemma WaitGood(s: St, ptr: Word)
    requires Good(s)
    ensures WellFormed(s)
    ensures Wait(s, ptr).Next? ==> Good(Wait(s, ptr).s)
  {
    CurrentRuns(s);
    var p := s.current;
    var z := FirstDeadChild(s.pt, p, 0);
    FirstDeadIff(s.pt, p);
    KidIff(s.pt, p);
    if z != NIL {
      InvReapStale(s, p, p, z);
      assert Tidy(s.pt, z);
      CleanupIs(s, p, z);
      AttendedReaped(s.pt, p, z);
    } else if HasKid(s.pt, p) {
      if Wait(s, ptr).Next? {
        InvBlock(s, p);
        NoLostBlock(s.pt, p, s.pt[p].(state := Waiting));
        InvDispatch(s.(pt := s.pt[p := s.pt[p].(state := Waiting)]));
      }
    } else {
      ReturnsGood(s, S_NO_CHILD);
    }
  }

  lemma AttendedReaped(pt: seq<Pcb>, y: int, x: int)
    requires NoLostWakeup(pt) && IsIn(pt, y, Running) && DeadChild(pt, x, y)
    ensures NoLostWakeup(pt[y := Told(pt[y], pt[x])][x := Freed(pt[x])])
  {
    NoLostMinorAll(pt, y, Told(pt[y], pt[x]));
    NoLostState(pt[y := Told(pt[y], pt[x])], x, Freed(pt[x]));
  }

  lemma ForkGood(s: St, prio: Word)
    requires Good(s)
    ensures WellFormed(s)
    ensures DoFork(s, prio).Next? ==> Good(DoFork(s, prio).s)
  {
    CurrentRuns(s);
    var p := s.current;
    var n := FirstUnused(s.pt, 0);
    if n == |s.pt| || StackGranted(s.mem) == 0 {
      ReturnsGood(s, S_ERROR);
    } else if DoFork(s, prio).Next? {
      ReturnsGood(s, ForkReturn(s));
      ForkedGood(Returns(s, ForkReturn(s)), prio, n);
    }
  }

  lemma TakeStackPool(m: Mem)
    ensures TakeStack(m).qfree == m.qfree && TakeStack(m).qpages == m.qpages
  {
  }

  lemma ForkedGood(s: St, prio: Word, n: int)
    requires Good(s) && Slot(s.pt, n) && s.pt[n].state == Unused && StackGranted(s.mem) != 0
    ensures Slot(s.pt, s.current)
    ensures var r := Schedule(WithChild(s, n, prio), n);
      r.Next? ==> Good(r.s)
  {
    CurrentRuns(s);
    var c := ChildPcb(s, StackGranted(s.mem), prio);
    var f := Fork(s.nextPid, s.pt[s.current].pid);
    var s1 := WithChild(s, n, prio);
    if Schedule(s1, n).Next? {
      TakeStackPool(s.mem);
      InvForkChild(s, s.current, n, c, f, TakeStack(s.mem));
      NoLostFork(s.pt, n, c.(state := Ready));
      assert Schedule(s1, n).s.pt == s.pt[n := c.(state := Ready)];
    }
  }

  /** The running process goes to the back of its queue and another one is dispatched. */
  function Yield(s: St): Outcome
    requires WellFormed(s)
  {
    var s1 :- Schedule(s, s.current);
    Dispatch(s1)
  }

  lemma YieldGood(s: St)
    requires Inv(s, s.current) && s.current != NIL && NoLostWakeup(s.pt)
    ensures WellFormed(s)
    ensures Yield(s).Next? ==> Good(Yield(s).s)
  {
    CurrentRuns(s);
    if Yield(s).Next? {
      InvSchedule(s, s.current, s.current);
      NoLostSchedule(s, s.current);
      InvDispatch(Schedule(s, s.current).s);
    }
  }

  /** The running process as it goes to sleep, and the state once it is queued. */
  function Sleeper(s: St, n: Word): Pcb
    requires Slot(s.pt, s.current)
  {
    s.pt[s.current].(state := Sleeping, wakeup := (s.time + n) % TWO_32)
  }

  function Asleep(s: St, n: Word): St
    requires Slot(s.pt, s.current) && TakeQnode(s.mem).Some?
  {
    var pt := s.pt[s.current := Sleeper(s, n)];
    s.(pt := pt, sleeping := Insert(s.sleeping, s.current, ByWakeup, Wakeups(pt)), mem := TakeQnode(s.mem).value)
  }

  lemma AsleepGood(s: St, n: Word)
    requires Good(s) && TakeQnode(s.mem).Some?
    ensures Slot(s.pt, s.current) && Inv(Asleep(s, n), NIL) && NoLostWakeup(Asleep(s, n).pt)
  {
    CurrentRuns(s);
    InvSleep(s, s.current, Sleeper(s, n), Wakeups(s.pt[s.current := Sleeper(s, n)]));
    NoLostState(s.pt, s.current, Sleeper(s, n));
  }

  lemma SleepUnfolds(s: St, n: Word)
    requires WellFormed(s) && n > 0 && Sleep(s, n).Next?
    ensures TakeQnode(s.mem).Some? && Sleep(s, n) == Dispatch(Asleep(s, n))
  {
  }

  /** A real sleep ends in dispatch(), in this state. */
  lemma SleepIs(s: St, n: Word) returns (a: St)
    requires Good(s) && WellFormed(s) && n > 0 && Sleep(s, n).Next?
    ensures TakeQnode(s.mem).Some? && a == Asleep(s, n) && Sleep(s, n) == Dispatch(a)
    ensures Inv(a, NIL) && NoLostWakeup(a.pt)
  {
    SleepUnfolds(s, n);
    AsleepGood(s, n);
    a := Asleep(s, n);
  }

  lemma SleepGood(s: St, n: Word)
    requires Good(s)
    ensures WellFormed(s)
    ensures Sleep(s, n).Next? ==> Good(Sleep(s, n).s)
  {
    CurrentRuns(s);
    if n == 0 {
      YieldGood(s);
    } else if Sleep(s, n).Next? {
      var a := SleepIs(s, n);
      InvDispatch(a);
    }
  }

  // ---- the clock ---------------------------------------------------------------------

  lemma WokenGood(s: St)
    requires Good(s) && s.sleeping != []
    ensures |s.ready| == N_PRIOS && Woken(s).Next? && Good(Woken(s).s)
    ensures Woken(s).s.current == s.current && Woken(s).s.mem == s.mem && Woken(s).s.pt[s.current] == s.pt[s.current]
    ensures Woken(s).s.time == s.time && Woken(s).s.hist == s.hist
  {
    CurrentRuns(s);
    InvWoken(s, s.current);
    var x := s.sleeping[0];
    NoLostState(s.pt, x, s.pt[x].(state := Ready));
  }

  /** The wake loop never halts the kernel: each turn gives back the node it needs. */
  lemma {:induction false} WakeAllGood(s: St)
    requires Good(s)
    ensures |s.ready| == N_PRIOS && WakeAll(s).Next?
    ensures Good(WakeAll(s).s) && WakeAll(s).s.current == s.current && WakeAll(s).s.mem == s.mem
    ensures WakeAll(s).s.pt[s.current] == s.pt[s.current]
    ensures WakeAll(s).s.time == s.time && WakeAll(s).s.hist == s.hist
    decreases |s.sleeping|
  {
    if s.sleeping != [] && KeyOf(Wakeups(s.pt), s.sleeping[0]) <= s.time {
      WokenGood(s);
      WakeAllGood(Woken(s).s);
    }
  }

  /** The running process has one tick less. */
  function Older(s: St): St
    requires Slot(s.pt, s.current) && s.pt[s.current].quantum > 0
  {
    s.(pt := s.pt[s.current := s.pt[s.current].(quantum := s.pt[s.current].quantum - 1)])
  }

  lemma OlderGood(s: St)
    requires Good(s)
    ensures WellFormed(s) && Inv(Older(s), s.current) && NoLostWakeup(Older(s).pt)
  {
    CurrentRuns(s);
    var c := s.pt[s.current].(quantum := s.pt[s.current].quantum - 1);
    InvMinor(s, s.current, s.current, c);
    NoLostMinorAll(s.pt, s.current, c);
  }

  lemma ExpireIs(s: St)
    requires Good(s)
    ensures WellFormed(s)
    ensures Expire(s) == if s.pt[s.current].quantum == 1 then Yield(Older(s)) else Next(Older(s))
  {
    OlderGood(s);
  }

  lemma ExpireGood(s: St)
    requires Good(s)
    ensures WellFormed(s)
    ensures Expire(s).Next? ==> Good(Expire(s).s)
  {
    ExpireIs(s);
    OlderGood(s);
    if s.pt[s.current].quantum == 1 { YieldGood(Older(s)); } else { assert Expire(s) == Next(Older(s)); }
  }

  lemma TimeGood(s: St, t: nat)
    requires Good(s)
    ensures Good(s.(time := t))
  {
  }

  /** The state after the wake loop of a tick. */
  lemma TickWakes(s: St)
    requires Good(s)
    ensures WellFormed(s)
    ensures var r := WakeAll(s.(time := (s.time + 1) % TWO_32));
      && r.Next? && Good(r.s) && r.s.current == s.current && r.s.mem == s.mem
      && r.s.pt[s.current] == s.pt[s.current] && r.s.hist == s.hist && r.s.time == (s.time + 1) % TWO_32
      && Tick(s) == Expire(r.s)
  {
    CurrentRuns(s);
    TimeGood(s, (s.time + 1) % TWO_32);
    WakeAllGood(s.(time := (s.time + 1) % TWO_32));
  }

  /** The states at the start and at the end of the wake loop of a tick. */
  lemma TickInto(s: St) returns (s0: St, s1: St)
    requires Good(s)
    ensures s0 == s.(time := s0.time) && s0.time == (s.time + 1) % TWO_32 && Good(s0)
    ensures |s0.ready| == N_PRIOS && WakeAll(s0) == Next(s1) && Good(s1) && WellFormed(s1) && s1.hist == s.hist
    ensures WellFormed(s) && Tick(s) == Expire(s1) && Step(s, ClockTick) == Expire(s1)
  {
    TickWakes(s);
    s0 := s.(time := (s.time + 1) % TWO_32);
    TimeGood(s, s0.time);
    s1 := WakeAll(s0).s;
    CurrentRuns(s1);
  }

  lemma TickGood(s: St)
    requires Good(s)
    ensures WellFormed(s)
    ensures Tick(s).Next? ==> Good(Tick(s).s)
  {
    TickWakes(s);
    ExpireGood(WakeAll(s.(time := (s.time + 1) % TWO_32)).s);
  }

  // ---- all steps, all runs -----------------------------------------------------------

  lemma ExecGood(s: St)
    requires Good(s)
    ensures WellFormed(s) && Good(Exec(s))
  {
    CurrentRuns(s);
    TakeStackPool(s.mem);
    var m := GiveStack(TakeStack(s.mem), s.pt[s.current].stack);
    assert Good(s.(mem := m));
    ReturnsGood(s.(mem := m), 0);
    ReturnsGood(s, S_ERROR);
  }

  /** The state in which the call is served: the caller's argument is in its context. */
  function Called(s: St, a: Word): St
    requires Slot(s.pt, s.current)
  {
    s.(pt := s.pt[s.current := s.pt[s.current].(arg := a)])
  }

  lemma CalledGood(s: St, a: Word)
    requires Good(s)
    ensures Slot(s.pt, s.current) && Good(Called(s, a))
  {
    InvMinor(s, s.current, s.current, s.pt[s.current].(arg := a));
    NoLostMinorAll(s.pt, s.current, s.pt[s.current].(arg := a));
  }

  lemma OtherCallsGood(s: St, code: int, arg: Word, arg3: Word, io: int)
    requires Good(s) && code in {3, 4, 5, 7, 8, 9}
    ensures WellFormed(s)
    ensures System(s, code, arg, arg3, io).Next? ==> Good(System(s, code, arg, arg3, io).s)
  {
    CurrentRuns(s);
    CalledGood(s, arg);
    var s1 := Called(s, arg);
    if code == 3 {
      ExecGood(s1);
    } else if System(s, code, arg, arg3, io).Next? {
      var v :| System(s, code, arg, arg3, io).s == Returns(s1, v);
      ReturnsGood(s1, v);
    }
  }

  /** Every step from a good state that does not halt ends in a good state. */
  lemma StepGood(s: St, e: Event)
    requires Good(s)
    ensures Step(s, e).Next? ==> Good(Step(s, e).s)
  {
    CurrentRuns(s);
    match e
    case ClockTick => TickGood(s);
    case Trap(code, arg, arg3, io) =>
      var bad := code < 0 || code >= 10;
      var a: Word := if bad then S_BAD_SYSCALL + TWO_32 else arg;
      CalledGood(s, a);
      if bad || code == 0 { ExitGood(Called(s, a), a); }
      else if code == 1 { WaitGood(Called(s, a), a); }
      else if code == 2 { ForkGood(Called(s, a), a); }
      else if code == 6 { SleepGood(Called(s, a), a); }
      else { OtherCallsGood(s, code, arg, arg3, io); }
  }

  lemma {:induction false} RunGood(s: St, es: seq<Event>)
    requires Good(s)
    ensures Run(s, es).Next? ==> Good(Run(s, es).s)
    decreases |es|
  {
    if es != [] {
      StepGood(s, es[0]);
      if Step(s, es[0]).Next? { RunGood(Step(s, es[0]).s, es[1..]); }
    }
  }
}
