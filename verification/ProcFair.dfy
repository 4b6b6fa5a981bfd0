/**
 The scheduler over whole runs: how long a ready process waits, and why there is always
 someone to dispatch as long as one process never blocks.
 */
module ProcFair {
  import opened Wrappers
  import opened QueueSpec
  import opened Sequences
  import opened ProcSpec
  import opened ProcSched
  import opened ProcInv
  import opened ProcExit
  import opened ProcSteps
  import opened ProcHalt

  /** The ready queues only grow at their ends, and the same process has the CPU. */
  ghost predicate Grows(s: St, s': St) {
    && |s.ready| == N_PRIOS == |s'.ready|
    && s.ready[0] <= s'.ready[0] && s.ready[1] <= s'.ready[1] && s.ready[2] <= s'.ready[2]
    && s'.current == s.current && s'.hist.dispatches == s.hist.dispatches
  }

  lemma GrowsSchedule(s: St, x: int)
    requires |s.ready| == N_PRIOS && Schedule(s, x).Next?
    ensures Grows(s, Schedule(s, x).s)
  {
  }

  lemma GrowsTrans(a: St, b: St, c: St)
    requires Grows(a, b) && Grows(b, c)
    ensures Grows(a, c)
  {
  }

  lemma {:induction false} GrowsWakeAll(s: St)
    requires |s.ready| == N_PRIOS && WakeAll(s).Next?
    ensures Grows(s, WakeAll(s).s)
    decreases |s.sleeping|
  {
    if s.sleeping != [] && KeyOf(Wakeups(s.pt), s.sleeping[0]) <= s.time {
      var s1 := Woken(s).s;
      GrowsSchedule(s.(sleeping := s.sleeping[1..], mem := FreeQnode(s.mem)), s.sleeping[0]);
      GrowsWakeAll(s1);
    }
  }

  lemma GrowsWakeInit(s: St, z: int)
    requires Slot(s.pt, s.init) && Slot(s.pt, z) && |s.ready| == N_PRIOS && WakeInit(s, z).Next?
    ensures Grows(s, WakeInit(s, z).s)
  {
  }

  lemma GrowsFinish(s: St, p: int, parent: int)
    requires Slot(s.pt, p) && Slot(s.pt, parent) && |s.ready| == N_PRIOS && Finish(s, p, parent).Next?
    ensures Grows(s, Finish(s, p, parent).s)
  {
  }

  // ---- what one step does to the ready queues -------------------------------------------

  /** The state in which dispatch() is called, if the step calls it. */
  datatype Shape = Shape(m: St, dispatches: bool)

  ghost predicate ShapeOf(s: St, e: Event, sh: Shape)
    requires Good(s)
  {
    && Grows(s, sh.m)
    && (sh.dispatches ==> Step(s, e) == Dispatch(sh.m) && Inv(sh.m, NIL))
    && (!sh.dispatches ==>
          && Step(s, e) == Next(sh.m) && Slot(sh.m.pt, s.current)
          && sh.m.pt[s.current].quantum == s.pt[s.current].quantum - (if e.ClockTick? then 1 else 0))
    && (e.ClockTick? && sh.dispatches ==> s.pt[s.current].quantum == 1)
    && (sh.dispatches && !Blocks(e) ==> IsIn(sh.m.pt, s.current, Ready))
  }

  /** Calls after which the caller may not come back: exit, a bad code, wait, a real sleep. */
  predicate Blocks(e: Event) {
    e.Trap? && (e.code <= 1 || e.code >= 10 || (e.code == 6 && e.arg != 0))
  }

  lemma YieldShape(s: St)
    requires Inv(s, s.current) && s.current != NIL
    ensures WellFormed(s)
    ensures Schedule(s, s.current).Next? ==>
              var m := Schedule(s, s.current).s; Grows(s, m) && Inv(m, NIL) && IsIn(m.pt, s.current, Ready)
  {
    CurrentRuns(s);
    if Schedule(s, s.current).Next? { InvSchedule(s, s.current, s.current); }
  }

  /** After the wake loop: the end of clk_isr. */
  lemma ExpireShape(s1: St) returns (m: St, d: bool)
    requires Good(s1) && WellFormed(s1) && Expire(s1).Next?
    ensures Grows(s1, m) && d == (s1.pt[s1.current].quantum == 1)
    ensures d ==> Expire(s1) == Dispatch(m) && Inv(m, NIL) && IsIn(m.pt, s1.current, Ready)
    ensures !d ==> Expire(s1) == Next(m) && Slot(m.pt, s1.current)
    ensures !d ==> m.pt[s1.current].quantum == s1.pt[s1.current].quantum - 1
  {
    ExpireIs(s1);
    OlderGood(s1);
    var s2 := Older(s1);
    d := s1.pt[s1.current].quantum == 1;
    if d {
      YieldShape(s2);
      m := Schedule(s2, s2.current).s;
    } else {
      m := s2;
    }
  }

  lemma TickShape(s: St) returns (sh: Shape)
    requires Good(s) && Step(s, ClockTick).Next?
    ensures ShapeOf(s, ClockTick, sh)
  {
    TickWakes(s);
    var s0 := s.(time := (s.time + 1) % TWO_32);
    var s1 := WakeAll(s0).s;
    GrowsWakeAll(s0);
    var m, d := ExpireShape(s1);
    GrowsTrans(s0, s1, m);
    sh := Shape(m, d);
  }

  lemma ExitShape(s: St, status: Word) returns (m: St)
    requires Good(s) && WellFormed(s) && Exit(s, status).Next?
    ensures Grows(s, m) && Inv(m, NIL) && Exit(s, status) == Dispatch(m)
  {
    ExitIs(s, status);
    BequeathGood(s, status);
    var p := s.current;
    var s2 := Bequeath(s, status).s;
    GrowsBequeath(s, status);
    var parent := s.pt[p].parent;
    FinishGood(s2, p, parent);
    GrowsFinish(s2, p, parent);
    m := Finish(s2, p, parent).s;
    GrowsTrans(s, s2, m);
  }

  lemma GrowsBequeath(s: St, status: Word)
    requires WellFormed(s) && Bequeath(s, status).Next?
    ensures Grows(s, Bequeath(s, status).s)
  {
    var pt1 := s.pt[s.current := s.pt[s.current].(status := Wrap32(status))];
    var z := LastDeadChild(pt1, s.current, |pt1|);
    var s1 := s.(pt := Adopt(pt1, s.current, s.init));
    if z != NIL && s1.pt[s.init].state == Waiting { GrowsWakeInit(s1, z); }
  }

  lemma WaitShape(s: St, ptr: Word) returns (m: St, d: bool)
    requires Good(s) && WellFormed(s) && Wait(s, ptr).Next?
    ensures Grows(s, m) && |m.pt| == |s.pt|
    ensures d ==> Inv(m, NIL) && Wait(s, ptr) == Dispatch(m)
    ensures !d ==> Wait(s, ptr) == Next(m) && m.pt[s.current].quantum == s.pt[s.current].quantum
  {
    CurrentRuns(s);
    var z := FirstDeadChild(s.pt, s.current, 0);
    if z == NIL && exists c :: 0 <= c < |s.pt| && ChildOf(s.pt, c, s.current) {
      InvBlock(s, s.current);
      m, d := s.(pt := s.pt[s.current := s.pt[s.current].(state := Waiting)]), true;
    } else {
      m, d := Wait(s, ptr).s, false;
      if z != NIL { assert Tidy(s.pt, z); CleanupIs(s, s.current, z); }
    }
  }

  lemma ForkShape(s: St, prio: Word)
    requires Good(s) && WellFormed(s) && DoFork(s, prio).Next?
    ensures var m := DoFork(s, prio).s;
      Grows(s, m) && Slot(m.pt, s.current) && m.pt[s.current].quantum == s.pt[s.current].quantum
  {
    CurrentRuns(s);
    var n := FirstUnused(s.pt, 0);
    if n < |s.pt| && StackGranted(s.mem) != 0 {
      assert n != s.current;
    }
  }

  lemma GrowsAsleep(s: St, n: Word)
    requires WellFormed(s) && TakeQnode(s.mem).Some?
    ensures Grows(s, Asleep(s, n))
  {
  }

  lemma SleepShape(s: St, n: Word) returns (m: St)
    requires Good(s) && WellFormed(s) && Sleep(s, n).Next?
    ensures Grows(s, m) && Inv(m, NIL) && Sleep(s, n) == Dispatch(m)
    ensures n == 0 ==> IsIn(m.pt, s.current, Ready)
  {
    if n == 0 {
      YieldShape(s);
      m := Schedule(s, s.current).s;
    } else {
      m := SleepIs(s, n);
      GrowsAsleep(s, n);
    }
  }

  /** A call's shape, from the state in which its argument is in place. */
  lemma CallShape(s: St, e: Event, s1: St, sh: Shape)
    requires Good(s) && e.Trap? && Grows(s1, sh.m) && Slot(s.pt, s.current)
    requires s1 == s.(pt := s1.pt) && |s1.pt| == |s.pt| && s1.pt[s.current].quantum == s.pt[s.current].quantum
    requires sh.dispatches ==> Step(s, e) == Dispatch(sh.m) && Inv(sh.m, NIL)
    requires sh.dispatches && !Blocks(e) ==> IsIn(sh.m.pt, s.current, Ready)
    requires !sh.dispatches ==> Step(s, e) == Next(sh.m) && Slot(sh.m.pt, s.current)
    requires !sh.dispatches ==> sh.m.pt[s.current].quantum == s1.pt[s.current].quantum
    ensures ShapeOf(s, e, sh)
  {
  }

  lemma ExitCase(s: St, e: Event, a: Word) returns (sh: Shape)
    requires Good(s) && e.Trap? && (e.code <= 0 || e.code >= 10) && Step(s, e).Next?
    requires a == if e.code == 0 then e.arg else S_BAD_SYSCALL + TWO_32
    ensures ShapeOf(s, e, sh)
  {
    CurrentRuns(s);
    CalledGood(s, a);
    var m := ExitShape(Called(s, a), a);
    sh := Shape(m, true);
    CallShape(s, e, Called(s, a), sh);
  }

  lemma WaitCase(s: St, e: Event) returns (sh: Shape)
    requires Good(s) && e.Trap? && e.code == 1 && Step(s, e).Next?
    ensures ShapeOf(s, e, sh)
  {
    CurrentRuns(s);
    CalledGood(s, e.arg);
    var m, d := WaitShape(Called(s, e.arg), e.arg);
    sh := Shape(m, d);
    CallShape(s, e, Called(s, e.arg), sh);
  }

  lemma SleepCase(s: St, e: Event) returns (sh: Shape)
    requires Good(s) && e.Trap? && e.code == 6 && Step(s, e).Next?
    ensures ShapeOf(s, e, sh)
  {
    CurrentRuns(s);
    CalledGood(s, e.arg);
    var m := SleepShape(Called(s, e.arg), e.arg);
    sh := Shape(m, true);
    CallShape(s, e, Called(s, e.arg), sh);
  }

  /** fork, and the calls that only return a value. */
  lemma OtherCase(s: St, e: Event) returns (sh: Shape)
    requires Good(s) && e.Trap? && e.code in {2, 3, 4, 5, 7, 8, 9} && Step(s, e).Next?
    ensures ShapeOf(s, e, sh)
  {
    CurrentRuns(s);
    CalledGood(s, e.arg);
    if e.code == 2 { ForkShape(Called(s, e.arg), e.arg); }
    sh := Shape(Step(s, e).s, false);
    CallShape(s, e, Called(s, e.arg), sh);
  }

  lemma StepShape(s: St, e: Event) returns (sh: Shape)
    requires Good(s) && Step(s, e).Next?
    ensures ShapeOf(s, e, sh)
  {
    match e
    case ClockTick => sh := TickShape(s);
    case Trap(code, arg, _, _) =>
      if code == 0 { sh := ExitCase(s, e, arg); }
      else if code < 0 || code >= 10 { sh := ExitCase(s, e, S_BAD_SYSCALL + TWO_32); }
      else if code == 1 { sh := WaitCase(s, e); }
      else if code == 6 { sh := SleepCase(s, e); }
      else { sh := OtherCase(s, e); }
  }

  // ---- bounded waiting --------------------------------------------------------------------

  /** p is the k-th process, counting from 0, in the ready queue of level q. */
  ghost predicate QueuedAt(s: St, q: nat, k: nat, p: int) {
    |s.ready| == N_PRIOS && q < N_PRIOS && k < |s.ready[q]| && s.ready[q][k] == p
  }

  /** Nobody of a higher level than q has the CPU. */
  predicate LevelAtLeast(s: St, q: nat) {
    Slot(s.pt, s.current) && s.pt[s.current].priority >= q
  }

  lemma DispatchLevel(m: St)
    requires Inv(m, NIL) && Dispatch(m).Next?
    ensures var s' := Dispatch(m).s; var i := TopLevel(m.ready);
      && i < N_PRIOS && s'.current == m.ready[i][0] && Slot(s'.pt, s'.current)
      && s'.pt[s'.current].priority == i && s'.pt[s'.current].quantum == Q_STD
  {
    var i := TopLevel(m.ready);
    var x := m.ready[i][0];
    HeadOcc(m.ready[i], x);
    assert InPlace(m.pt, m.ready, m.sleeping, x);
  }

  /** One step, with at most one dispatch, has moved p up accordingly. */
  ghost predicate Moved(s: St, s': St, q: nat, k: nat, p: int) {
    var d := s'.hist.dispatches - s.hist.dispatches;
    && (d == 0 || d == 1)
    && (d == 1 && k == 0 ==> s'.current == p)
    && (d <= k ==> QueuedAt(s', q, k - d, p))
    && (d == 0 ==> s'.current == s.current)
  }

  /** What one step does to the quantum: a dispatch gives a fresh one, and otherwise a tick uses up one
      unit; a tick dispatches only when that was the last. */
  ghost predicate Spent(s: St, e: Event, s': St) {
    && Slot(s.pt, s.current) && Slot(s'.pt, s'.current)
    && (s'.hist.dispatches == s.hist.dispatches ==>
          s'.pt[s'.current].quantum == s.pt[s.current].quantum - (if e.ClockTick? then 1 else 0))
    && (s'.hist.dispatches != s.hist.dispatches ==>
          s'.pt[s'.current].quantum == Q_STD && (e.ClockTick? ==> s.pt[s.current].quantum == 1))
  }

  /** One step: p moves up one place exactly when there is a dispatch, and from the front of
      the queue it gets the CPU.  3 * k + quantum bounds the ticks still to wait. */
  lemma StepAdvances(s: St, e: Event, s': St, q: nat, k: nat, p: int)
    requires Good(s) && QueuedAt(s, q, k, p) && Step(s, e) == Next(s') && LevelAtLeast(s', q)
    ensures Moved(s, s', q, k, p) && Spent(s, e, s')
  {
    CurrentRuns(s);
    var sh := StepShape(s, e);
    GrowsQueued(s, sh.m, q, k, p);
    if sh.dispatches {
      DispatchAdvances(sh.m, s', q, k, p);
      MovedOn(s, sh.m, s', q, k, p);
    } else {
      StayedOn(s, e, sh.m, q, k, p);
    }
  }

  lemma StayedOn(s: St, e: Event, m: St, q: nat, k: nat, p: int)
    requires Grows(s, m) && QueuedAt(m, q, k, p) && Slot(s.pt, s.current) && Slot(m.pt, s.current)
    requires m.pt[s.current].quantum == s.pt[s.current].quantum - (if e.ClockTick? then 1 else 0)
    ensures Moved(s, m, q, k, p) && Spent(s, e, m)
  {
  }

  lemma GrowsQueued(s: St, m: St, q: nat, k: nat, p: int)
    requires QueuedAt(s, q, k, p) && Grows(s, m)
    ensures QueuedAt(m, q, k, p)
  {
  }

  lemma MovedOn(s: St, m: St, s': St, q: nat, k: nat, p: int)
    requires Grows(s, m) && Moved(m, s', q, k, p) && s'.hist.dispatches == m.hist.dispatches + 1
    ensures Moved(s, s', q, k, p)
  {
  }

  lemma DispatchAdvances(m: St, s': St, q: nat, k: nat, p: int)
    requires Inv(m, NIL) && QueuedAt(m, q, k, p) && Dispatch(m) == Next(s') && LevelAtLeast(s', q)
    ensures s'.hist.dispatches == m.hist.dispatches + 1 && Moved(m, s', q, k, p)
    ensures Slot(s'.pt, s'.current) && s'.pt[s'.current].quantum == Q_STD
  {
    DispatchLevel(m);
    assert TopLevel(m.ready) == q;
  }

  function Ticks(es: seq<Event>): nat
    decreases |es|
  {
    if es == [] then 0 else (if es[0].ClockTick? then 1 else 0) + Ticks(es[1..])
  }

  /** No step of the run gives the CPU to a process of a higher level than q. */
  predicate RunAtLeast(s: St, es: seq<Event>, q: nat)
    decreases |es|
  {
    es == [] || (Step(s, es[0]).Next? && LevelAtLeast(Step(s, es[0]).s, q) && RunAtLeast(Step(s, es[0]).s, es[1..], q))
  }

  /** Some step of the run gives the CPU to p. */
  predicate GetsCpu(s: St, es: seq<Event>, p: int)
    decreases |es|
  {
    es != [] && Step(s, es[0]).Next? && (Step(s, es[0]).s.current == p || GetsCpu(Step(s, es[0]).s, es[1..], p))
  }

  /** Within 3 * k + quantum clock ticks the k-th process of level q has had the CPU, whatever
      calls are made meanwhile, as long as no higher level is served. */
  lemma {:induction false} BoundedWait(s: St, es: seq<Event>, q: nat, k: nat, p: int)
    requires Good(s) && QueuedAt(s, q, k, p) && RunAtLeast(s, es, q)
    requires Ticks(es) >= 3 * k + s.pt[s.current].quantum
    ensures GetsCpu(s, es, p)
    decreases |es|
  {
    if es != [] {
      var s' := Step(s, es[0]).s;
      StepGood(s, es[0]);
      StepAdvances(s, es[0], s', q, k, p);
      if s'.current != p {
        var k' := WaitsLess(s, es[0], s', q, k, p);
        BoundedWait(s', es[1..], q, k', p);
      }
    }
  }

  lemma WaitsLess(s: St, e: Event, s': St, q: nat, k: nat, p: int) returns (k': nat)
    requires Moved(s, s', q, k, p) && Spent(s, e, s') && s'.current != p
    ensures QueuedAt(s', q, k', p)
    ensures 3 * k' + s'.pt[s'.current].quantum + (if e.ClockTick? then 1 else 0) <= 3 * k + s.pt[s.current].quantum
  {
    k' := if s'.hist.dispatches == s.hist.dispatches then k else k - 1;
  }

  lemma StepTurn(s: St, e: Event, s': St, q: nat, k: nat, p: int)
    requires Good(s) && QueuedAt(s, q, k, p) && Step(s, e) == Next(s') && LevelAtLeast(s', q)
    ensures Good(s') && Turned(s, s', q, k, p)
  {
    StepGood(s, e);
    StepAdvances(s, e, s', q, k, p);
    MovedTurned(s, s', q, k, p);
  }

  /** p has got the CPU exactly if it was at the front, and otherwise has moved up. */
  ghost predicate Turned(s: St, s': St, q: nat, k: nat, p: int) {
    var d := s'.hist.dispatches - s.hist.dispatches;
    && (d == 0 || d == 1) && (s'.current == p <==> d > k) && (d <= k ==> QueuedAt(s', q, k - d, p))
  }

  lemma MovedTurned(s: St, s': St, q: nat, k: nat, p: int)
    requires Good(s') && Moved(s, s', q, k, p)
    ensures Turned(s, s', q, k, p)
  {
    var d := s'.hist.dispatches - s.hist.dispatches;
    if d <= k { NotCurrent(s', q, k - d, p); }
  }

  /** Between s and r: the k-th process of level q has got the CPU if and only if there were more than
      k dispatches, and otherwise has moved up one place for each. */
  ghost predicate TurnLaw(s: St, r: St, got: bool, q: nat, k: nat, p: int) {
    var d := r.hist.dispatches - s.hist.dispatches;
    d >= 0 && (d <= k <==> !got) && (d <= k ==> QueuedAt(r, q, k - d, p))
  }

  /** It gets the CPU at exactly the (k + 1)-th dispatch: before that it has moved up one place
      for every dispatch there was. */
  lemma {:induction false} ExactTurn(s: St, es: seq<Event>, q: nat, k: nat, p: int)
    requires Good(s) && QueuedAt(s, q, k, p) && RunAtLeast(s, es, q) && Run(s, es).Next?
    ensures TurnLaw(s, Run(s, es).s, GetsCpu(s, es, p), q, k, p)
    decreases |es|, 0
  {
    if es != [] {
      var s' := RunSplit(s, es, q, p);
      StepTurn(s, es[0], s', q, k, p);
      TurnFrom(s, s', es[1..], q, k, p);
    } else {
      assert Run(s, es) == Next(s) && !GetsCpu(s, es, p);
    }
  }

  lemma RunSplit(s: St, es: seq<Event>, q: nat, p: int) returns (s': St)
    requires es != [] && RunAtLeast(s, es, q) && Run(s, es).Next?
    ensures Step(s, es[0]) == Next(s') && LevelAtLeast(s', q) && RunAtLeast(s', es[1..], q)
    ensures Run(s, es) == Run(s', es[1..])
    ensures GetsCpu(s, es, p) == (s'.current == p || GetsCpu(s', es[1..], p))
  {
    s' := Step(s, es[0]).s;
  }

  /** The rest of the run, after a step in which there were d dispatches. */
  lemma {:induction false} TurnFrom(s: St, s': St, es: seq<Event>, q: nat, k: nat, p: int)
    requires Good(s') && RunAtLeast(s', es, q) && Run(s', es).Next?
    requires Turned(s, s', q, k, p)
    ensures TurnLaw(s, Run(s', es).s, s'.current == p || GetsCpu(s', es, p), q, k, p)
    decreases |es|, 1
  {
    var d := s'.hist.dispatches - s.hist.dispatches;
    if d <= k {
      ExactTurn(s', es, q, k - d, p);
      TurnJoin(s, s', Run(s', es).s, GetsCpu(s', es, p), q, k, p);
    } else {
      TurnNow(s, s', es, q, k, p);
    }
  }

  lemma TurnNow(s: St, s': St, es: seq<Event>, q: nat, k: nat, p: int)
    requires Good(s') && Run(s', es).Next? && Turned(s, s', q, k, p) && s'.hist.dispatches - s.hist.dispatches > k
    ensures TurnLaw(s, Run(s', es).s, s'.current == p || GetsCpu(s', es, p), q, k, p)
  {
    DispatchesGrow(s', es);
    TurnPast(s, s', Run(s', es).s, GetsCpu(s', es, p), q, k, p);
  }

  lemma TurnPast(s: St, s': St, r: St, got: bool, q: nat, k: nat, p: int)
    requires Turned(s, s', q, k, p) && s'.hist.dispatches - s.hist.dispatches > k
    requires r.hist.dispatches >= s'.hist.dispatches
    ensures TurnLaw(s, r, s'.current == p || got, q, k, p)
  {
  }

  lemma TurnJoin(s: St, s': St, r: St, got: bool, q: nat, k: nat, p: int)
    requires Turned(s, s', q, k, p) && s'.hist.dispatches - s.hist.dispatches <= k
    requires TurnLaw(s', r, got, q, k - (s'.hist.dispatches - s.hist.dispatches), p)
    ensures TurnLaw(s, r, s'.current == p || got, q, k, p)
  {
  }

  lemma NotCurrent(s: St, q: nat, k: nat, p: int)
    requires Good(s) && QueuedAt(s, q, k, p)
    ensures p != s.current
  {
    CurrentRuns(s);
    OccIn(s.ready[q], p);
    assert InPlace(s.pt, s.ready, s.sleeping, p);
  }

  lemma {:induction false} DispatchesGrow(s: St, es: seq<Event>)
    requires Good(s) && Run(s, es).Next?
    ensures Run(s, es).s.hist.dispatches >= s.hist.dispatches
    decreases |es|
  {
    if es != [] {
      StepGood(s, es[0]);
      var sh := StepShape(s, es[0]);
      DispatchesGrow(Step(s, es[0]).s, es[1..]);
    }
  }

  // ---- there is always someone to run -------------------------------------------------------

  predicate Runnable(s: St, x: int) {
    IsIn(s.pt, x, Ready) || IsIn(s.pt, x, Running)
  }

  lemma ReadyIsQueued(s: St, r: int, x: int)
    requires Inv(s, r)
    ensures IsIn(s.pt, x, Ready) <==> x in s.ready[0] || x in s.ready[1] || x in s.ready[2]
  {
    assert InPlace(s.pt, s.ready, s.sleeping, x);
    OccIn(s.ready[0], x);
    OccIn(s.ready[1], x);
    OccIn(s.ready[2], x);
  }

  lemma DispatchKeepsRunnable(m: St, x: int)
    requires Inv(m, NIL) && IsIn(m.pt, x, Ready) && Dispatch(m).Next?
    ensures Runnable(Dispatch(m).s, x)
  {
  }

  /** A process that is ready, or that runs and makes no blocking call, stays runnable. */
  lemma StepRunnable(s: St, e: Event, x: int)
    requires Good(s) && Runnable(s, x) && Step(s, e).Next?
    requires s.current == x ==> !Blocks(e)
    ensures Runnable(Step(s, e).s, x)
  {
    CurrentRuns(s);
    assert OnCpu(s.pt, x, s.current);
    var sh := StepShape(s, e);
    StepGood(s, e);
    if s.current != x {
      ReadyIsQueued(s, s.current, x);
      if sh.dispatches {
        ReadyIsQueued(sh.m, NIL, x);
        DispatchKeepsRunnable(sh.m, x);
      } else {
        ReadyIsQueued(sh.m, sh.m.current, x);
      }
    } else if sh.dispatches {
      DispatchKeepsRunnable(sh.m, x);
    } else {
      CurrentRuns(sh.m);
    }
  }

  /** x makes no blocking call anywhere in the run. */
  predicate NeverBlocks(s: St, es: seq<Event>, x: int)
    decreases |es|
  {
    es != [] ==>
      && (s.current == x ==> !Blocks(es[0]))
      && (Step(s, es[0]).Next? ==> NeverBlocks(Step(s, es[0]).s, es[1..], x))
  }

  lemma SomeoneToRun(s: St, e: Event, x: int)
    requires Good(s) && Runnable(s, x)
    requires s.current == x ==> !Blocks(e)
    ensures Step(s, e) != Halted(NobodyReady)
  {
    CurrentRuns(s);
    HaltsExactly(s, e);
    assert OnCpu(s.pt, x, s.current);
    if s.current != x { ReadyIsQueued(s, s.current, x); }
  }

  /** While one process stays runnable, dispatch() always finds someone: its assertion cannot fail. */
  lemma {:induction false} DispatchNeverFails(s: St, es: seq<Event>, x: int)
    requires Good(s) && Runnable(s, x) && NeverBlocks(s, es, x)
    ensures Run(s, es) != Halted(NobodyReady)
    ensures Run(s, es).Next? ==> Runnable(Run(s, es).s, x)
    decreases |es|
  {
    if es != [] {
      SomeoneToRun(s, es[0], x);
      if Step(s, es[0]).Next? {
        StepGood(s, es[0]);
        StepRunnable(s, es[0], x);
        DispatchNeverFails(Step(s, es[0]).s, es[1..], x);
      }
    }
  }

  // ---- the longest possible wait -------------------------------------------------------------

  lemma {:induction false} DistinctFit(xs: seq<int>, room: set<int>)
    requires Distinct(xs) && forall x :: x in xs ==> x in room
    ensures |xs| <= |room|
  {
    if xs != [] {
      var n := |xs| - 1;
      var t, x := xs[..n], xs[n];
      assert x in xs;
      var rest := room - {x};
      forall y | y in t ensures y in rest {
        var i :| 0 <= i < n && t[i] == y;
        assert xs[i] == y && y in xs;
      }
      DistinctFit(t, rest);
      assert room == rest + {x};
    }
  }

  ghost function Slots(n: nat): (r: set<int>)
    ensures forall x :: x in r <==> 0 <= x < n
    ensures |r| == n
  {
    if n == 0 then {} else Slots(n - 1) + {n - 1}
  }

  lemma {:induction false} OccOnce(xs: seq<int>)
    requires forall x: int :: Occ(xs, x) <= 1
    ensures Distinct(xs)
  {
    if xs != [] {
      var n := |xs| - 1;
      var t := xs[..n];
      assert xs == t + [xs[n]];
      forall x: int ensures Occ(t, x) <= 1 { assert Occ(t, x) <= Occ(xs, x); }
      OccOnce(t);
      forall i | 0 <= i < n ensures xs[i] != xs[n] {
        assert t[i] in multiset(t);
        assert Occ(xs, xs[n]) == Occ(t, xs[n]) + 1;
      }
    }
  }

  /** A ready queue never holds the running process, so it holds at most N_PROCS - 1. */
  lemma QueueFits(s: St, q: nat)
    requires Good(s) && q < N_PRIOS
    ensures |s.ready| == N_PRIOS && |s.ready[q]| <= |s.pt| - 1
  {
    CurrentRuns(s);
    var xs := s.ready[q];
    var room := Slots(|s.pt|);
    forall x: int ensures Occ(xs, x) <= 1 { assert InPlace(s.pt, s.ready, s.sleeping, x); }
    OccOnce(xs);
    forall x | x in xs ensures x in room - {s.current} {
      OccIn(xs, x);
      assert InPlace(s.pt, s.ready, s.sleeping, x);
    }
    DistinctFit(xs, room - {s.current});
  }

  /** So nobody at the highest level waits more than 3 * (N_PROCS - 1) ticks. */
  lemma LongestWait(s: St, es: seq<Event>, p: int)
    requires Good(s) && IsIn(s.pt, p, Ready) && s.pt[p].priority == 0
    requires Run(s, es).Next? && Ticks(es) >= 3 * (|s.pt| - 1)
    ensures GetsCpu(s, es, p)
  {
    assert InPlace(s.pt, s.ready, s.sleeping, p);
    OccIn(s.ready[0], p);
    var k :| 0 <= k < |s.ready[0]| && s.ready[0][k] == p;
    QueueFits(s, 0);
    RunAtLeastZero(s, es);
    BoundedWait(s, es, 0, k, p);
  }

  lemma {:induction false} RunAtLeastZero(s: St, es: seq<Event>)
    requires Good(s) && Run(s, es).Next?
    ensures RunAtLeast(s, es, 0)
    decreases |es|
  {
    if es != [] {
      StepGood(s, es[0]);
      RunAtLeastZero(Step(s, es[0]).s, es[1..]);
    }
  }
}
