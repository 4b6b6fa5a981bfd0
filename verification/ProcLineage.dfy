/**
 Who is told.  Every exit status goes to the process that forked the child, or to init if
 that process has itself exited; and PIDs stay unique until next_pid wraps.
 */
module ProcLineage {
  import opened Wrappers
  import opened QueueSpec
  import opened ProcSpec
  import opened ProcSched
  import opened ProcFamily
  import opened ProcReap
  import opened ProcInv
  import opened ProcExit
  import opened ProcSteps

  /** The original parent of f's child, or init once that parent has exited. */
  ghost predicate RightParent(f: Fork, to: int, gone: set<int>) {
    to == f.parent || (to == PID_INIT && f.parent in gone)
  }

  ghost predicate Lineage(pt: seq<Pcb>, init: int, forks: seq<Fork>, gone: set<int>, p: int) {
    Live(pt, p) && p != init ==>
      && Slot(pt, pt[p].parent)
      && exists i :: 0 <= i < |forks| && forks[i].child == pt[p].pid
           && (pt[pt[p].parent].pid == forks[i].parent || (pt[p].parent == init && forks[i].parent in gone))
  }

  ghost predicate Rightly(d: Delivery, forks: seq<Fork>, gone: set<int>) {
    exists i :: 0 <= i < |forks| && forks[i].child == d.what.pid && RightParent(forks[i], d.to, gone)
  }

  /** `gone` are the PIDs that have exited. */
  ghost predicate LineInv(pt: seq<Pcb>, init: int, hist: History, gone: set<int>) {
    && Slot(pt, init) && pt[init].pid == PID_INIT
    && (forall p: int :: Lineage(pt, init, hist.forks, gone, p))
    && (forall i :: 0 <= i < |hist.log| ==> Rightly(hist.log[i], hist.forks, gone))
  }

  ghost function Gone(exits: seq<Exited>): set<int> {
    set i | 0 <= i < |exits| :: exits[i].pid
  }

  lemma GoneAppend(exits: seq<Exited>, e: Exited)
    ensures Gone(exits + [e]) == Gone(exits) + {e.pid}
  {
    forall x ensures x in Gone(exits + [e]) <==> x in Gone(exits) + {e.pid} {
      if x in Gone(exits) {
        var i :| 0 <= i < |exits| && exits[i].pid == x;
        assert (exits + [e])[i].pid == x;
      }
      if x == e.pid { assert (exits + [e])[|exits|].pid == x; }
    }
  }

  /** Any change at one slot that keeps its PID and parent and does not bring it to life. */
  lemma LineOne(pt: seq<Pcb>, init: int, hist: History, gone: set<int>, x: int, c: Pcb)
    requires LineInv(pt, init, hist, gone) && Slot(pt, x)
    requires c.pid == pt[x].pid && c.parent == pt[x].parent && (c.state != Unused ==> pt[x].state != Unused)
    ensures LineInv(pt[x := c], init, hist, gone)
  {
    var pt' := pt[x := c];
    forall p: int ensures Lineage(pt', init, hist.forks, gone, p) {
      assert Lineage(pt, init, hist.forks, gone, p);
    }
  }

  lemma LineHist(pt: seq<Pcb>, init: int, h: History, h': History, gone: set<int>)
    requires LineInv(pt, init, h, gone) && h'.forks == h.forks && h'.log == h.log
    ensures LineInv(pt, init, h', gone)
  {
  }

  /** The children of an exiting process lose their parent to init. */
  lemma LineAdopt(pt: seq<Pcb>, init: int, hist: History, gone: set<int>, p: int)
    requires LineInv(pt, init, hist, gone) && Slot(pt, p) && p != init
    ensures LineInv(Adopt(pt, p, init), init, hist, gone + {pt[p].pid})
  {
    var pt' := Adopt(pt, p, init);
    var gone' := gone + {pt[p].pid};
    forall q: int ensures Lineage(pt', init, hist.forks, gone', q) {
      assert Lineage(pt, init, hist.forks, gone, q);
    }
    forall i | 0 <= i < |hist.log| ensures Rightly(hist.log[i], hist.forks, gone') {
      assert Rightly(hist.log[i], hist.forks, gone);
    }
  }

  /** A status is delivered to the process that is the child's parent at that moment. */
  lemma LineDeliver(pt: seq<Pcb>, init: int, hist: History, gone: set<int>, y: int, x: int)
    requires LineInv(pt, init, hist, gone) && Live(pt, x) && x != init && pt[x].parent == y
    ensures Slot(pt, y)
    ensures LineInv(pt, init, hist.(log := hist.log + [Delivery(Exited(pt[x].pid, pt[x].status), pt[y].pid)]), gone)
  {
    assert Lineage(pt, init, hist.forks, gone, x);
    var d := Delivery(Exited(pt[x].pid, pt[x].status), pt[y].pid);
    var i :| 0 <= i < |hist.forks| && hist.forks[i].child == pt[x].pid
             && (pt[y].pid == hist.forks[i].parent || (y == init && hist.forks[i].parent in gone));
    assert RightParent(hist.forks[i], d.to, gone);
    var log' := hist.log + [d];
    forall k | 0 <= k < |log'| ensures Rightly(log'[k], hist.forks, gone) {
      if k < |hist.log| { assert Rightly(hist.log[k], hist.forks, gone); }
    }
  }

  lemma LineFork(pt: seq<Pcb>, init: int, hist: History, gone: set<int>, n: int, c: Pcb, f: Fork)
    requires LineInv(pt, init, hist, gone) && Family(pt, init)
    requires Slot(pt, n) && pt[n].state == Unused && Live(pt, c.parent)
    requires f == Fork(c.pid, pt[c.parent].pid)
    ensures LineInv(pt[n := c], init, hist.(forks := hist.forks + [f]), gone)
  {
    var pt' := pt[n := c];
    var forks' := hist.forks + [f];
    var rank :| Tree(pt, init, rank);
    forall p: int ensures Lineage(pt', init, forks', gone, p) {
      assert Lineage(pt, init, hist.forks, gone, p);
      if p == n {
        assert forks'[|hist.forks|] == f;
      } else if Live(pt', p) && p != init {
        assert Kin(pt, init, rank, p);
        var i :| 0 <= i < |hist.forks| && hist.forks[i].child == pt[p].pid
             && (pt[pt[p].parent].pid == hist.forks[i].parent
                 || (pt[p].parent == init && hist.forks[i].parent in gone));
        assert forks'[i] == hist.forks[i];
      }
    }
    forall k | 0 <= k < |hist.log| ensures Rightly(hist.log[k], forks', gone) {
      assert Rightly(hist.log[k], hist.forks, gone);
      var i :| 0 <= i < |hist.forks| && hist.forks[i].child == hist.log[k].what.pid
               && RightParent(hist.forks[i], hist.log[k].to, gone);
      assert forks'[i] == hist.forks[i];
    }
  }

  // ---- primitives --------------------------------------------------------------------------

  ghost predicate Lined(s: St, gone: set<int>) { LineInv(s.pt, s.init, s.hist, gone) }

  lemma LineSchedule(s: St, x: int, gone: set<int>)
    requires Lined(s, gone) && |s.ready| == N_PRIOS && Live(s.pt, x) && Schedule(s, x).Next?
    ensures Lined(Schedule(s, x).s, gone)
  {
    LineOne(s.pt, s.init, s.hist, gone, x, s.pt[x].(state := Ready));
  }

  lemma LineDispatch(s: St, gone: set<int>)
    requires Inv(s, NIL) && Lined(s, gone) && Dispatch(s).Next?
    ensures Lined(Dispatch(s).s, gone)
  {
    var i := TopLevel(s.ready);
    var x := s.ready[i][0];
    HeadOcc(s.ready[i], x);
    assert InPlace(s.pt, s.ready, s.sleeping, x);
    LineOne(s.pt, s.init, s.hist, gone, x, s.pt[x].(state := Running, quantum := Q_STD));
    LineHist(Dispatch(s).s.pt, s.init, s.hist, Dispatch(s).s.hist, gone);
  }

  lemma LineReap(s: St, y: int, x: int, gone: set<int>)
    requires Lined(s, gone) && Live(s.pt, x) && x != s.init && s.pt[x].parent == y && x != y && Slot(s.pt, y)
    requires s.pt[x].stack != 0
    ensures Lined(Cleanup(StatusReturn(s, y, x), x), gone)
  {
    CleanupIs(s, y, x);
    LineDeliver(s.pt, s.init, s.hist, gone, y, x);
    var h := s.hist.(log := s.hist.log + [Delivery(Exited(s.pt[x].pid, s.pt[x].status), s.pt[y].pid)]);
    LineOne(s.pt, s.init, h, gone, y, Told(s.pt[y], s.pt[x]));
    LineOne(s.pt[y := Told(s.pt[y], s.pt[x])], s.init, h, gone, x, Freed(s.pt[x]));
  }

  lemma LineWakeInit(s: St, p: int, z: int, gone: set<int>)
    requires Inv(s, p) && IsIn(s.pt, s.init, Waiting) && IsIn(s.pt, z, Zombie) && s.pt[z].parent == s.init
    requires Lined(s, gone) && WakeInit(s, z).Next?
    ensures Lined(WakeInit(s, z).s, gone)
  {
    var s0 := s.(zombie := RemoveFirst(s.zombie, z), mem := FreeQnode(s.mem));
    var sr := StatusReturn(s0, s.init, z);
    assert Tidy(s.pt, z);
    ZombieChildless(s.pt, s.init, z);
    CleanupCommutes(sr, z, s.init);
    LineReap(s0, s.init, z, gone);
    CleanupIs(s0, s.init, z);
    LineSchedule(Cleanup(sr, z), s.init, gone);
  }

  lemma LineFinish(s: St, p: int, parent: int, gone: set<int>)
    requires Inv(s, p) && IsIn(s.pt, p, Running) && p != s.init && Slot(s.pt, parent) && parent == s.pt[p].parent != p
    requires Lined(s, gone) && Finish(s, p, parent).Next?
    ensures Lined(Finish(s, p, parent).s, gone)
  {
    var s0 := s.(hist := s.hist.(exits := s.hist.exits + [Exited(s.pt[p].pid, s.pt[p].status)]));
    LineHist(s.pt, s.init, s.hist, s0.hist, gone);
    assert Tidy(s.pt, p);
    if s.pt[parent].state == Waiting {
      var sr := StatusReturn(s0, parent, p);
      CleanupCommutes(sr, p, parent);
      LineReap(s0, parent, p, gone);
      CleanupIs(s0, parent, p);
      LineSchedule(Cleanup(sr, p), parent, gone);
    } else {
      LineOne(s.pt, s.init, s0.hist, gone, p, s.pt[p].(state := Zombie));
    }
  }

  lemma FinishExits(s: St, p: int, parent: int)
    requires Slot(s.pt, p) && Slot(s.pt, parent) && |s.ready| == N_PRIOS && Finish(s, p, parent).Next?
    ensures Finish(s, p, parent).s.hist.exits == s.hist.exits + [Exited(s.pt[p].pid, s.pt[p].status)]
  {
  }

  lemma BequeathExits(s: St, status: Word)
    requires WellFormed(s) && Bequeath(s, status).Next?
    ensures Bequeath(s, status).s.hist.exits == s.hist.exits
  {
  }

  lemma LineBequeath(s: St, status: Word, gone: set<int>)
    requires Good(s) && s.current != s.init && Lined(s, gone)
    ensures WellFormed(s) && Bequeath(s, status).Next?
    ensures Lined(Bequeath(s, status).s, gone + {s.pt[s.current].pid})
  {
    CurrentRuns(s);
    BequeathGood(s, status);
    var p := s.current;
    var c := s.pt[p].(status := Wrap32(status));
    InvMinor(s, p, p, c);
    LineOne(s.pt, s.init, s.hist, gone, p, c);
    var s0 := s.(pt := s.pt[p := c]);
    InvAdopt(s0, p, p);
    LineAdopt(s0.pt, s.init, s.hist, gone, p);
    var s1 := s0.(pt := Adopt(s0.pt, p, s.init));
    var z := LastDeadChild(s0.pt, p, |s0.pt|);
    if z != NIL && s1.pt[s.init].state == Waiting { LineWakeInit(s1, p, z, gone + {c.pid}); }
  }

  lemma LineExit(s: St, status: Word)
    requires Good(s) && WellFormed(s) && Exit(s, status).Next? && Lined(s, Gone(s.hist.exits))
    ensures Lined(Exit(s, status).s, Gone(Exit(s, status).s.hist.exits))
  {
    ExitIs(s, status);
    BequeathGood(s, status);
    var gone := Gone(s.hist.exits);
    LineBequeath(s, status, gone);
    BequeathExits(s, status);
    var p, s2, parent := s.current, Bequeath(s, status).s, s.pt[s.current].parent;
    FinishGood(s2, p, parent);
    LineFinish(s2, p, parent, gone + {s.pt[p].pid});
    FinishExits(s2, p, parent);
    GoneAppend(s.hist.exits, Exited(s2.pt[p].pid, s2.pt[p].status));
    LineDispatch(Finish(s2, p, parent).s, gone + {s.pt[p].pid});
  }

  lemma LineWait(s: St, ptr: Word, gone: set<int>)
    requires Good(s) && WellFormed(s) && Wait(s, ptr).Next? && Lined(s, gone)
    ensures Lined(Wait(s, ptr).s, gone) && Wait(s, ptr).s.hist.exits == s.hist.exits
  {
    CurrentRuns(s);
    var p := s.current;
    var z := FirstDeadChild(s.pt, p, 0);
    if z != NIL {
      assert Tidy(s.pt, z);
      ZombieChildless(s.pt, s.init, z);
      LineReap(s, p, z, gone);
      var s1 := Cleanup(StatusReturn(s, p, z), z);
      CleanupIs(s, p, z);
      LineHist(s1.pt, s.init, s1.hist, Wait(s, ptr).s.hist, gone);
    } else if exists c :: 0 <= c < |s.pt| && ChildOf(s.pt, c, p) {
      InvBlock(s, p);
      LineOne(s.pt, s.init, s.hist, gone, p, s.pt[p].(state := Waiting));
      LineDispatch(s.(pt := s.pt[p := s.pt[p].(state := Waiting)]), gone);
    } else {
      LineOne(s.pt, s.init, s.hist, gone, p, s.pt[p].(ret := S_NO_CHILD));
    }
  }

  lemma LineForked(s: St, prio: Word, n: int, gone: set<int>)
    requires Good(s) && Lined(s, gone) && Slot(s.pt, n) && s.pt[n].state == Unused
    ensures WellFormed(s)
    ensures var r := Schedule(WithChild(s, n, prio), n);
      r.Next? ==> Lined(r.s, gone) && r.s.hist.exits == s.hist.exits
  {
    CurrentRuns(s);
    var f := Fork(s.nextPid, s.pt[s.current].pid);
    var s2 := WithChild(s, n, prio);
    LineFork(s.pt, s.init, s.hist, gone, n, ChildPcb(s, StackGranted(s.mem), prio), f);
    if Schedule(s2, n).Next? { LineSchedule(s2, n, gone); }
  }

  lemma LineReturns(s: St, v: int, gone: set<int>)
    requires Slot(s.pt, s.current) && Lined(s, gone)
    ensures Lined(Returns(s, v), gone)
  {
    LineOne(s.pt, s.init, s.hist, gone, s.current, s.pt[s.current].(ret := v));
  }

  lemma LineDoFork(s: St, prio: Word, gone: set<int>)
    requires Good(s) && WellFormed(s) && DoFork(s, prio).Next? && Lined(s, gone)
    ensures Lined(DoFork(s, prio).s, gone) && DoFork(s, prio).s.hist.exits == s.hist.exits
  {
    CurrentRuns(s);
    var n := FirstUnused(s.pt, 0);
    if n == |s.pt| || StackGranted(s.mem) == 0 {
      LineReturns(s, S_ERROR, gone);
    } else {
      LineReturns(s, ForkReturn(s), gone);
      ReturnsGood(s, ForkReturn(s));
      LineForked(Returns(s, ForkReturn(s)), prio, n, gone);
    }
  }

  lemma LineYield(s: St, gone: set<int>)
    requires Inv(s, s.current) && s.current != NIL && NoLostWakeup(s.pt) && Lined(s, gone)
    ensures WellFormed(s)
    ensures Yield(s).Next? ==> Lined(Yield(s).s, gone) && Yield(s).s.hist.exits == s.hist.exits
  {
    CurrentRuns(s);
    if Yield(s).Next? {
      InvSchedule(s, s.current, s.current);
      LineSchedule(s, s.current, gone);
      LineDispatch(Schedule(s, s.current).s, gone);
    }
  }

  lemma LineSleep(s: St, n: Word, gone: set<int>)
    requires Good(s) && WellFormed(s) && Sleep(s, n).Next? && Lined(s, gone)
    ensures Lined(Sleep(s, n).s, gone) && Sleep(s, n).s.hist.exits == s.hist.exits
  {
    CurrentRuns(s);
    if n == 0 {
      LineYield(s, gone);
    } else {
      var a := SleepIs(s, n);
      LineOne(s.pt, s.init, s.hist, gone, s.current, Sleeper(s, n));
      assert Lined(a, gone);
      LineDispatch(a, gone);
    }
  }

  lemma {:induction false} LineWakeAll(s: St, gone: set<int>)
    requires Good(s) && Lined(s, gone)
    ensures |s.ready| == N_PRIOS && WakeAll(s).Next? && Lined(WakeAll(s).s, gone)
    decreases |s.sleeping|
  {
    WakeAllGood(s);
    if s.sleeping != [] && KeyOf(Wakeups(s.pt), s.sleeping[0]) <= s.time {
      WokenGood(s);
      InvWoken(s, s.current);
      LineOne(s.pt, s.init, s.hist, gone, s.sleeping[0], s.pt[s.sleeping[0]].(state := Ready));
      LineWakeAll(Woken(s).s, gone);
    }
  }

  lemma LineTick(s: St, gone: set<int>)
    requires Good(s) && WellFormed(s) && Tick(s).Next? && Lined(s, gone)
    ensures Lined(Tick(s).s, gone) && Tick(s).s.hist.exits == s.hist.exits
  {
    var s0, s1 := TickInto(s);
    assert Lined(s0, gone);
    LineWakeAll(s0, gone);
    LineExpire(s1, gone);
  }

  lemma LineExpire(s: St, gone: set<int>)
    requires Good(s) && WellFormed(s) && Expire(s).Next? && Lined(s, gone)
    ensures Lined(Expire(s).s, gone) && Expire(s).s.hist.exits == s.hist.exits
  {
    ExpireIs(s);
    OlderGood(s);
    LineOne(s.pt, s.init, s.hist, gone, s.current, s.pt[s.current].(quantum := s.pt[s.current].quantum - 1));
    if s.pt[s.current].quantum == 1 { LineYield(Older(s), gone); }
  }

  lemma LineOther(s: St, code: int, arg: Word, arg3: Word, io: int, gone: set<int>)
    requires WellFormed(s) && Lined(s, gone) && code in {3, 4, 5, 7, 8, 9}
    requires System(s, code, arg, arg3, io).Next?
    ensures var s' := System(s, code, arg, arg3, io).s; Lined(s', gone) && s'.hist.exits == s.hist.exits
  {
    var s1 := Called(s, arg);
    LineOne(s.pt, s.init, s.hist, gone, s.current, s.pt[s.current].(arg := arg));
    if code == 3 {
      LineReturns(s1, S_ERROR, gone);
      LineReturns(s1, 0, gone);
    } else {
      var v :| System(s, code, arg, arg3, io).s == Returns(s1, v);
      LineReturns(s1, v, gone);
    }
  }

  lemma LineStep(s: St, e: Event)
    requires Good(s) && Lined(s, Gone(s.hist.exits)) && Step(s, e).Next?
    ensures Lined(Step(s, e).s, Gone(Step(s, e).s.hist.exits))
  {
    CurrentRuns(s);
    var gone := Gone(s.hist.exits);
    match e
    case ClockTick => LineTick(s, gone);
    case Trap(code, arg, arg3, io) =>
      var bad := code < 0 || code >= 10;
      var a: Word := if bad then S_BAD_SYSCALL + TWO_32 else arg;
      CalledGood(s, a);
      var s1 := Called(s, a);
      LineOne(s.pt, s.init, s.hist, gone, s.current, s.pt[s.current].(arg := a));
      if bad || code == 0 { LineExit(s1, a); }
      else if code == 1 { LineWait(s1, a, gone); }
      else if code == 2 { LineDoFork(s1, a, gone); }
      else if code == 6 { LineSleep(s1, a, gone); }
      else { LineOther(s, code, arg, arg3, io, gone); }
  }

  // ---- PIDs ------------------------------------------------------------------------------------

  /** The i-th fork hands out PID 2 + i, as an int32_t. */
  ghost predicate PidInv(s: St) {
    && s.nextPid == Wrap32(FIRST_USER_PID + |s.hist.forks|)
    && forall i :: 0 <= i < |s.hist.forks| ==> s.hist.forks[i].child == Wrap32(FIRST_USER_PID + i)
  }

  /** A step forks at most once, and only fork() moves next_pid. */
  ghost predicate OneFork(s: St, s': St) {
    || (s'.nextPid == s.nextPid && s'.hist.forks == s.hist.forks)
    || (s'.nextPid == Wrap32(s.nextPid + 1) && |s'.hist.forks| == |s.hist.forks| + 1
        && s'.hist.forks[..|s.hist.forks|] == s.hist.forks && s'.hist.forks[|s.hist.forks|].child == s.nextPid)
  }

  lemma {:induction false} WakeAllForks(s: St)
    requires |s.ready| == N_PRIOS && WakeAll(s).Next?
    ensures WakeAll(s).s.nextPid == s.nextPid && WakeAll(s).s.hist.forks == s.hist.forks
    decreases |s.sleeping|
  {
    if s.sleeping != [] && KeyOf(Wakeups(s.pt), s.sleeping[0]) <= s.time { WakeAllForks(Woken(s).s); }
  }

  lemma FinishForks(s: St, p: int, parent: int)
    requires Slot(s.pt, p) && Slot(s.pt, parent) && |s.ready| == N_PRIOS && Finish(s, p, parent).Next?
    ensures Finish(s, p, parent).s.nextPid == s.nextPid && Finish(s, p, parent).s.hist.forks == s.hist.forks
  {
  }

  lemma BequeathForks(s: St, status: Word)
    requires WellFormed(s) && Bequeath(s, status).Next?
    ensures Bequeath(s, status).s.nextPid == s.nextPid && Bequeath(s, status).s.hist.forks == s.hist.forks
  {
  }

  lemma ExitForks(s: St, status: Word)
    requires Good(s) && WellFormed(s) && Exit(s, status).Next?
    ensures Exit(s, status).s.nextPid == s.nextPid && Exit(s, status).s.hist.forks == s.hist.forks
  {
    ExitIs(s, status);
    BequeathGood(s, status);
    BequeathForks(s, status);
    FinishForks(Bequeath(s, status).s, s.current, s.pt[s.current].parent);
  }

  lemma StepForks(s: St, e: Event)
    requires Good(s) && Step(s, e).Next?
    ensures OneFork(s, Step(s, e).s)
  {
    CurrentRuns(s);
    match e
    case ClockTick =>
      TickWakes(s);
      WakeAllForks(s.(time := (s.time + 1) % TWO_32));
    case Trap(code, arg, arg3, io) =>
      if code <= 0 || code >= 10 {
        var a: Word := if code == 0 then arg else S_BAD_SYSCALL + TWO_32;
        CalledGood(s, a);
        CurrentRuns(Called(s, a));
        ExitForks(Called(s, a), a);
      } else {
        CallForks(s, code, arg, arg3, io);
      }
  }

  lemma ForkForks(s: St, prio: Word)
    requires WellFormed(s) && DoFork(s, prio).Next?
    ensures OneFork(s, DoFork(s, prio).s)
  {
  }

  lemma WaitForks(s: St, ptr: Word)
    requires WellFormed(s) && Wait(s, ptr).Next?
    ensures OneFork(s, Wait(s, ptr).s)
  {
  }

  lemma SleepForks(s: St, n: Word)
    requires WellFormed(s) && Sleep(s, n).Next?
    ensures OneFork(s, Sleep(s, n).s)
  {
  }

  lemma CallForks(s: St, code: int, arg: Word, arg3: Word, io: int)
    requires WellFormed(s) && 1 <= code < 10 && System(s, code, arg, arg3, io).Next?
    ensures OneFork(s, System(s, code, arg, arg3, io).s)
  {
    var s1 := Called(s, arg);
    if code == 1 { WaitForks(s1, arg); }
    else if code == 2 { ForkForks(s1, arg); }
    else if code == 6 { SleepForks(s1, arg); }
  }

  lemma WrapNext(x: int)
    ensures Wrap32(Wrap32(x) + 1) == Wrap32(x + 1)
  {
  }

  lemma StepPids(s: St, e: Event)
    requires Good(s) && PidInv(s) && Step(s, e).Next?
    ensures PidInv(Step(s, e).s)
  {
    StepForks(s, e);
    ForkPids(s, Step(s, e).s);
  }

  lemma ForkPids(s: St, s': St)
    requires PidInv(s) && OneFork(s, s')
    ensures PidInv(s')
  {
    WrapNext(FIRST_USER_PID + |s.hist.forks|);
    forall i | 0 <= i < |s'.hist.forks| ensures s'.hist.forks[i].child == Wrap32(FIRST_USER_PID + i) {
      if i < |s.hist.forks| { assert s'.hist.forks[i] == s'.hist.forks[..|s.hist.forks|][i]; }
    }
  }

  lemma {:induction false} BornOnce(forks: seq<Fork>, pid: int)
    requires |forks| <= TWO_31 - FIRST_USER_PID
    requires forall i :: 0 <= i < |forks| ==> forks[i].child == Wrap32(FIRST_USER_PID + i)
    ensures Born(forks)[pid] == if pid == PID_INIT || FIRST_USER_PID <= pid < FIRST_USER_PID + |forks| then 1 else 0
  {
    if forks != [] {
      var t := forks[..|forks| - 1];
      assert forall i :: 0 <= i < |t| ==> t[i] == forks[i];
      BornOnce(t, pid);
      assert forks[|forks| - 1].child == FIRST_USER_PID + |t|;
    }
  }

  lemma {:induction false} ExitPidsBound(exits: seq<Exited>, e: Exited)
    ensures multiset(exits)[e] <= ExitPids(exits)[e.pid]
  {
    if exits != [] {
      var n := |exits| - 1;
      assert exits == exits[..n] + [exits[n]];
      ExitPidsBound(exits[..n], e);
    }
  }

  /** While next_pid has not wrapped, PIDs are unique: nobody alive shares a PID with another
      living process or with one that has exited, and nobody exits twice. */
  lemma PidsUnique(s: St, pid: int)
    requires Good(s) && PidInv(s) && |s.hist.forks| <= TWO_31 - FIRST_USER_PID
    ensures Census(s.pt)[Alive(pid)] + ExitPids(s.hist.exits)[pid] <= 1
  {
    BornOnce(s.hist.forks, pid);
    assert Counted(Census(s.pt), s.hist, pid);
  }

  /** Exactly-once reaping: an exit is still a zombie with its status, or has been delivered,
      never both and never twice. */
  lemma ReapedOnce(s: St, e: Exited)
    requires Good(s) && PidInv(s) && |s.hist.forks| <= TWO_31 - FIRST_USER_PID && e in s.hist.exits
    ensures Census(s.pt)[Dead(e)] + Delivered(s.hist.log)[e] == 1
  {
    PidsUnique(s, e.pid);
    ExitPidsBound(s.hist.exits, e);
    assert Reported(Census(s.pt), s.hist, e);
    assert e in multiset(s.hist.exits);
  }

  lemma CensusMember(pt: seq<Pcb>, p: int, q: int)
    requires Live(pt, p) && Live(pt, q) && p != q && MarkOf(pt[p]) == MarkOf(pt[q])
    ensures forall m :: m in MarkOf(pt[p]) ==> Census(pt)[m] >= 2
  {
    var c := pt[p].(state := Unused);
    CensusUpdate(pt, p, c);
    CensusUpdate(pt[p := c], q, pt[q]);
  }

  lemma LivePidsDiffer(s: St, p: int, q: int)
    requires Good(s) && PidInv(s) && |s.hist.forks| <= TWO_31 - FIRST_USER_PID
    requires Live(s.pt, p) && Live(s.pt, q) && p != q
    requires s.pt[p].state != Zombie && s.pt[q].state != Zombie
    ensures s.pt[p].pid != s.pt[q].pid
  {
    PidsUnique(s, s.pt[p].pid);
    assert Alive(s.pt[p].pid) in MarkOf(s.pt[p]);
    if s.pt[p].pid == s.pt[q].pid { CensusMember(s.pt, p, q); }
  }
}
