/**
 Sleeping processes over whole runs: the sleep queue stays sorted, a tick wakes exactly
 those whose time has come, in queue order, and a sleeper is woken at exactly the tick
 that `Due` counts down to.
 */
module ProcSleep {
  import opened Wrappers
  import opened QueueSpec
  import opened ProcSpec
  import opened ProcSched
  import opened ProcFamily
  import opened ProcInv
  import opened ProcExit
  import opened ProcSteps
  import opened ProcFair

  /** Every sleeper has a 32-bit wakeup time. */
  ghost predicate WordWakeups(pt: seq<Pcb>) {
    forall p: int :: IsIn(pt, p, Sleeping) ==> pt[p].wakeup < TWO_32
  }

  ghost predicate SleepInv(s: St) {
    SortedBy(s.sleeping, Wakeups(s.pt)) && s.time < TWO_32 && WordWakeups(s.pt)
  }

  // ---- steps that disturb no sleeper ----------------------------------------------------

  ghost predicate StillAsleep(pt: seq<Pcb>, pt': seq<Pcb>, p: int) {
    IsIn(pt, p, Sleeping) ==>
      IsIn(pt', p, Sleeping) && pt'[p].wakeup == pt[p].wakeup && pt'[p].priority == pt[p].priority
  }

  /** Sleepers sleep on, and nobody joins them. */
  ghost predicate SleepersKept(pt: seq<Pcb>, pt': seq<Pcb>) {
    && |pt'| == |pt|
    && (forall p: int :: StillAsleep(pt, pt', p))
    && (forall p: int :: IsIn(pt', p, Sleeping) ==> IsIn(pt, p, Sleeping))
  }

  ghost predicate Undisturbed(s: St, s': St) {
    s'.sleeping == s.sleeping && s'.time == s.time && SleepersKept(s.pt, s'.pt)
  }

  lemma UndisturbedTrans(a: St, b: St, c: St)
    requires Undisturbed(a, b) && Undisturbed(b, c)
    ensures Undisturbed(a, c)
  {
    forall p: int ensures StillAsleep(a.pt, c.pt, p) {
      assert StillAsleep(a.pt, b.pt, p) && StillAsleep(b.pt, c.pt, p);
    }
  }

  lemma KeptOne(pt: seq<Pcb>, x: int, c: Pcb)
    requires Slot(pt, x)
    requires c.state == Sleeping <==> pt[x].state == Sleeping
    requires c.state == Sleeping ==> c.wakeup == pt[x].wakeup && c.priority == pt[x].priority
    ensures SleepersKept(pt, pt[x := c])
  {
    var pt' := pt[x := c];
    forall p: int ensures StillAsleep(pt, pt', p) {}
  }

  lemma KeptTrans(a: seq<Pcb>, b: seq<Pcb>, c: seq<Pcb>)
    requires SleepersKept(a, b) && SleepersKept(b, c)
    ensures SleepersKept(a, c)
  {
    forall p: int ensures StillAsleep(a, c, p) { assert StillAsleep(a, b, p) && StillAsleep(b, c, p); }
  }

  lemma UndSchedule(s: St, x: int)
    requires |s.ready| == N_PRIOS && Schedule(s, x).Next? && !IsIn(s.pt, x, Sleeping)
    ensures Undisturbed(s, Schedule(s, x).s)
  {
    KeptOne(s.pt, x, s.pt[x].(state := Ready));
  }

  lemma UndDispatch(s: St)
    requires Inv(s, NIL) && Dispatch(s).Next?
    ensures Undisturbed(s, Dispatch(s).s)
  {
    var i := TopLevel(s.ready);
    var x := s.ready[i][0];
    HeadOcc(s.ready[i], x);
    assert InPlace(s.pt, s.ready, s.sleeping, x);
    KeptOne(s.pt, x, s.pt[x].(state := Running, quantum := Q_STD));
  }

  lemma UndReap(s: St, y: int, x: int)
    requires Slot(s.pt, x) && Slot(s.pt, y) && x != y && s.pt[x].stack != 0 && !IsIn(s.pt, x, Sleeping)
    ensures Undisturbed(s, Cleanup(StatusReturn(s, y, x), x))
  {
    CleanupIs(s, y, x);
    var pt1 := s.pt[y := Told(s.pt[y], s.pt[x])];
    KeptOne(s.pt, y, Told(s.pt[y], s.pt[x]));
    KeptOne(pt1, x, Freed(s.pt[x]));
    KeptTrans(s.pt, pt1, pt1[x := Freed(s.pt[x])]);
  }

  lemma UndWakeInit(s: St, p: int, z: int)
    requires Inv(s, p) && IsIn(s.pt, s.init, Waiting) && IsIn(s.pt, z, Zombie) && WakeInit(s, z).Next?
    ensures Undisturbed(s, WakeInit(s, z).s)
  {
    var s0 := s.(zombie := RemoveFirst(s.zombie, z), mem := FreeQnode(s.mem));
    var sr := StatusReturn(s0, s.init, z);
    assert Tidy(s.pt, z);
    CleanupCommutes(sr, z, s.init);
    UndReap(s0, s.init, z);
    UndSchedule(Cleanup(sr, z), s.init);
    UndisturbedTrans(s0, Cleanup(sr, z), WakeInit(s, z).s);
  }

  lemma UndFinish(s: St, p: int, parent: int)
    requires Inv(s, p) && IsIn(s.pt, p, Running) && Slot(s.pt, parent) && parent != p && Finish(s, p, parent).Next?
    ensures Undisturbed(s, Finish(s, p, parent).s)
  {
    var s0 := s.(hist := s.hist.(exits := s.hist.exits + [Exited(s.pt[p].pid, s.pt[p].status)]));
    assert Tidy(s.pt, p);
    if s.pt[parent].state == Waiting {
      var sr := StatusReturn(s0, parent, p);
      CleanupCommutes(sr, p, parent);
      UndReap(s0, parent, p);
      UndSchedule(Cleanup(sr, p), parent);
      UndisturbedTrans(s0, Cleanup(sr, p), Finish(s, p, parent).s);
    } else {
      KeptOne(s.pt, p, s.pt[p].(state := Zombie));
    }
  }

  lemma UndBequeath(s: St, status: Word)
    requires Good(s) && s.current != s.init
    ensures WellFormed(s) && Bequeath(s, status).Next? && Undisturbed(s, Bequeath(s, status).s)
  {
    CurrentRuns(s);
    BequeathGood(s, status);
    var p := s.current;
    var c := s.pt[p].(status := Wrap32(status));
    InvMinor(s, p, p, c);
    KeptOne(s.pt, p, c);
    var s0 := s.(pt := s.pt[p := c]);
    InvAdopt(s0, p, p);
    var s1 := s0.(pt := Adopt(s0.pt, p, s.init));
    forall q: int ensures StillAsleep(s0.pt, s1.pt, q) {}
    UndisturbedTrans(s, s0, s1);
    var z := LastDeadChild(s0.pt, p, |s0.pt|);
    if z != NIL && s1.pt[s.init].state == Waiting {
      UndWakeInit(s1, p, z);
      UndisturbedTrans(s, s1, WakeInit(s1, z).s);
    }
  }

  lemma UndExit(s: St, status: Word)
    requires Good(s) && WellFormed(s) && Exit(s, status).Next?
    ensures Undisturbed(s, Exit(s, status).s)
  {
    ExitIs(s, status);
    UndBequeath(s, status);
    BequeathGood(s, status);
    var p, s2, parent := s.current, Bequeath(s, status).s, s.pt[s.current].parent;
    FinishGood(s2, p, parent);
    UndFinish(s2, p, parent);
    var s3 := Finish(s2, p, parent).s;
    UndDispatch(s3);
    UndisturbedTrans(s, s2, s3);
    UndisturbedTrans(s, s3, Exit(s, status).s);
  }

  lemma UndWait(s: St, ptr: Word)
    requires Good(s) && WellFormed(s) && Wait(s, ptr).Next?
    ensures Undisturbed(s, Wait(s, ptr).s)
  {
    CurrentRuns(s);
    var p := s.current;
    var z := FirstDeadChild(s.pt, p, 0);
    if z != NIL {
      assert Tidy(s.pt, z);
      UndReap(s, p, z);
    } else if exists c :: 0 <= c < |s.pt| && ChildOf(s.pt, c, p) {
      InvBlock(s, p);
      var m := s.(pt := s.pt[p := s.pt[p].(state := Waiting)]);
      KeptOne(s.pt, p, s.pt[p].(state := Waiting));
      UndDispatch(m);
      UndisturbedTrans(s, m, Dispatch(m).s);
    } else {
      KeptOne(s.pt, p, s.pt[p].(ret := S_NO_CHILD));
    }
  }

  lemma UndReturns(s: St, v: int)
    requires Slot(s.pt, s.current) && IsIn(s.pt, s.current, Running)
    ensures Undisturbed(s, Returns(s, v))
  {
    KeptOne(s.pt, s.current, s.pt[s.current].(ret := v));
  }

  lemma UndFork(s: St, prio: Word)
    requires Good(s) && WellFormed(s) && DoFork(s, prio).Next?
    ensures Undisturbed(s, DoFork(s, prio).s)
  {
    CurrentRuns(s);
    var n := FirstUnused(s.pt, 0);
    if n == |s.pt| || StackGranted(s.mem) == 0 {
      UndReturns(s, S_ERROR);
    } else {
      UndReturns(s, ForkReturn(s));
      var s1 := Returns(s, ForkReturn(s));
      var c := ChildPcb(s1, StackGranted(s1.mem), prio);
      KeptOne(s1.pt, n, c);
      KeptOne(s1.pt[n := c], n, c.(state := Ready));
      KeptTrans(s1.pt, s1.pt[n := c], DoFork(s, prio).s.pt);
      KeptTrans(s.pt, s1.pt, DoFork(s, prio).s.pt);
    }
  }

  lemma UndYield(s: St)
    requires Inv(s, s.current) && s.current != NIL && NoLostWakeup(s.pt)
    ensures WellFormed(s)
    ensures Yield(s).Next? ==> Undisturbed(s, Yield(s).s)
  {
    CurrentRuns(s);
    if Yield(s).Next? {
      InvSchedule(s, s.current, s.current);
      UndSchedule(s, s.current);
      UndDispatch(Schedule(s, s.current).s);
      UndisturbedTrans(s, Schedule(s, s.current).s, Yield(s).s);
    }
  }

  /** Does this event put its caller to sleep? */
  predicate PutsToSleep(e: Event) { e.Trap? && e.code == 6 && e.arg != 0 }

  lemma UndCall(s: St, e: Event)
    requires Good(s) && e.Trap? && !PutsToSleep(e) && Step(s, e).Next?
    ensures Undisturbed(s, Step(s, e).s)
  {
    CurrentRuns(s);
    var Trap(code, arg, arg3, io) := e;
    var bad := code < 0 || code >= 10;
    var a: Word := if bad then S_BAD_SYSCALL + TWO_32 else arg;
    CalledGood(s, a);
    var s1 := Called(s, a);
    CurrentRuns(s1);
    KeptOne(s.pt, s.current, s.pt[s.current].(arg := a));
    if bad || code == 0 { UndExit(s1, a); }
    else if code == 1 { UndWait(s1, a); }
    else if code == 2 { UndFork(s1, a); }
    else if code == 6 { UndYield(s1); }
    else if code == 3 { UndExec(s1); }
    else {
      var v :| Step(s, e).s == Returns(s1, v);
      UndReturns(s1, v);
    }
    UndisturbedTrans(s, s1, Step(s, e).s);
  }

  lemma UndExec(s: St)
    requires Slot(s.pt, s.current) && IsIn(s.pt, s.current, Running)
    ensures Undisturbed(s, Exec(s))
  {
    UndReturns(s, S_ERROR);
    UndReturns(s, 0);
  }

  lemma KeptSleepInv(s: St, s': St)
    requires SleepInv(s) && Undisturbed(s, s') && Inv(s, s.current)
    ensures SleepInv(s')
  {
    forall i | 0 <= i < |s.sleeping|
      ensures KeyOf(Wakeups(s'.pt), s.sleeping[i]) == KeyOf(Wakeups(s.pt), s.sleeping[i])
    {
      var x := s.sleeping[i];
      OccIn(s.sleeping, x);
      assert InPlace(s.pt, s.ready, s.sleeping, x);
      assert StillAsleep(s.pt, s'.pt, x);
    }
    forall p: int | IsIn(s'.pt, p, Sleeping) ensures s'.pt[p].wakeup < TWO_32 {
      assert StillAsleep(s.pt, s'.pt, p);
    }
  }

  // ---- the wake loop ---------------------------------------------------------------------

  /** How many entries at the head of the sleep queue are due at this time. */
  function DueCount(q: seq<int>, keys: seq<nat>, time: nat): (k: nat)
    ensures k <= |q|
    ensures forall i :: 0 <= i < k ==> KeyOf(keys, q[i]) <= time
    ensures k < |q| ==> KeyOf(keys, q[k]) > time
  {
    if q == [] || KeyOf(keys, q[0]) > time then 0 else 1 + DueCount(q[1..], keys, time)
  }

  /** The entries of level q, in order. */
  function ByLevel(xs: seq<int>, pt: seq<Pcb>, q: nat): seq<int> {
    if xs == [] then []
    else (if Slot(pt, xs[0]) && pt[xs[0]].priority == q then [xs[0]] else []) + ByLevel(xs[1..], pt, q)
  }

  lemma {:induction false} ByLevelSame(xs: seq<int>, pt: seq<Pcb>, pt': seq<Pcb>, q: nat)
    requires |pt'| == |pt| && forall i :: 0 <= i < |pt| ==> pt'[i].priority == pt[i].priority
    ensures ByLevel(xs, pt', q) == ByLevel(xs, pt, q)
  {
    if xs != [] { ByLevelSame(xs[1..], pt, pt', q); }
  }

  ghost predicate WokenPcb(s: St, s': St, k: nat, p: int)
    requires k <= |s.sleeping| && |s'.pt| == |s.pt|
  {
    Slot(s.pt, p) ==> s'.pt[p] == if p in s.sleeping[..k] then s.pt[p].(state := Ready) else s.pt[p]
  }

  lemma WokenIs(s: St)
    requires Good(s) && s.sleeping != []
    ensures |s.ready| == N_PRIOS && Woken(s).Next?
    ensures var x := s.sleeping[0]; var s1 := Woken(s).s;
      && Slot(s.pt, x) && s.pt[x].priority < N_PRIOS
      && s1.pt == s.pt[x := s.pt[x].(state := Ready)]
      && s1.ready == s.ready[s.pt[x].priority := s.ready[s.pt[x].priority] + [x]]
      && s1.sleeping == s.sleeping[1..] && s1.time == s.time && Wakeups(s1.pt) == Wakeups(s.pt)
  {
    WokenGood(s);
    InvWoken(s, s.current);
    assert Tidy(s.pt, s.sleeping[0]);
  }

  /** One turn of the wake loop. */
  lemma WokenStep(s: St, k: nat) returns (s1: St)
    requires Good(s) && k == DueCount(s.sleeping, Wakeups(s.pt), s.time) > 0
    ensures |s.ready| == N_PRIOS == |s1.ready| && Good(s1) && WakeAll(s) == WakeAll(s1)
    ensures var x := s.sleeping[0];
      && Slot(s.pt, x) && s.pt[x].priority < N_PRIOS
      && s1.pt == s.pt[x := s.pt[x].(state := Ready)]
      && s1.ready == s.ready[s.pt[x].priority := s.ready[s.pt[x].priority] + [x]]
      && s1.sleeping == s.sleeping[1..] && s1.time == s.time && Wakeups(s1.pt) == Wakeups(s.pt)
    ensures DueCount(s1.sleeping, Wakeups(s1.pt), s1.time) == k - 1
  {
    WokenIs(s);
    WokenGood(s);
    s1 := Woken(s).s;
  }

  lemma WokenPcbStep(s: St, s1: St, s2: St, k: nat, k1: nat)
    requires k1 + 1 == k <= |s.sleeping| && Slot(s.pt, s.sleeping[0])
    requires s1.pt == s.pt[s.sleeping[0] := s.pt[s.sleeping[0]].(state := Ready)] && s1.sleeping == s.sleeping[1..]
    requires |s2.pt| == |s.pt| && forall p: int :: WokenPcb(s1, s2, k1, p)
    ensures forall p: int :: WokenPcb(s, s2, k, p)
  {
    forall p: int ensures WokenPcb(s, s2, k, p) {
      assert WokenPcb(s1, s2, k1, p);
      assert s.sleeping[..k] == [s.sleeping[0]] + s1.sleeping[..k1];
    }
  }

  /** The wake loop wakes exactly the due entries at the head of the sleep queue. */
  lemma {:induction false} WakeAllPcbs(s: St)
    requires Good(s)
    ensures |s.ready| == N_PRIOS && WakeAll(s).Next?
    ensures var s' := WakeAll(s).s; var k := DueCount(s.sleeping, Wakeups(s.pt), s.time);
      s'.sleeping == s.sleeping[k..] && |s'.pt| == |s.pt| && forall p: int :: WokenPcb(s, s', k, p)
    decreases |s.sleeping|
  {
    var k := DueCount(s.sleeping, Wakeups(s.pt), s.time);
    if k > 0 {
      var s1 := WokenStep(s, k);
      WakeAllPcbs(s1);
      WokenPcbStep(s, s1, WakeAll(s).s, k, k - 1);
    }
  }

  /** Each level has gained those of t that belong to it, in the order of t. */
  ghost predicate Gains(ready': seq<seq<int>>, s: St, t: seq<int>) {
    && |ready'| == N_PRIOS == |s.ready|
    && ready'[0] == s.ready[0] + ByLevel(t, s.pt, 0)
    && ready'[1] == s.ready[1] + ByLevel(t, s.pt, 1)
    && ready'[2] == s.ready[2] + ByLevel(t, s.pt, 2)
  }

  /** ... and appends them to the ready queues of their levels in the order they had. */
  lemma WakeAllOrder(s: St)
    requires Good(s)
    ensures |s.ready| == N_PRIOS && WakeAll(s).Next?
    ensures var s' := WakeAll(s).s; var k := DueCount(s.sleeping, Wakeups(s.pt), s.time);
      Gains(s'.ready, s, s.sleeping[..k])
  {
    WakeAllGood(s);
    WakeOrder(s, WakeAll(s).s, DueCount(s.sleeping, Wakeups(s.pt), s.time));
  }

  lemma {:induction false} WakeOrder(s: St, s': St, k: nat)
    requires Good(s) && |s.ready| == N_PRIOS && WakeAll(s) == Next(s')
    requires k == DueCount(s.sleeping, Wakeups(s.pt), s.time)
    ensures Gains(s'.ready, s, s.sleeping[..k])
    decreases k
  {
    if k > 0 {
      var s1 := WokenStep(s, k);
      WakeOrder(s1, s', k - 1);
      WakeGains(s, s1, s'.ready, k);
    } else {
      NobodyDue(s);
    }
  }

  lemma NobodyDue(s: St)
    requires |s.ready| == N_PRIOS && DueCount(s.sleeping, Wakeups(s.pt), s.time) == 0
    ensures WakeAll(s) == Next(s) && Gains(s.ready, s, s.sleeping[..0])
  {
  }

  lemma WakeGains(s: St, s1: St, ready': seq<seq<int>>, k: nat)
    requires |s.ready| == N_PRIOS && 0 < k <= |s.sleeping| && Slot(s.pt, s.sleeping[0])
    requires s.pt[s.sleeping[0]].priority < N_PRIOS && s1.sleeping == s.sleeping[1..]
    requires s1.pt == s.pt[s.sleeping[0] := s.pt[s.sleeping[0]].(state := Ready)]
    requires var prio := s.pt[s.sleeping[0]].priority; s1.ready == s.ready[prio := s.ready[prio] + [s.sleeping[0]]]
    requires Gains(ready', s1, s1.sleeping[..k - 1])
    ensures Gains(ready', s, s.sleeping[..k])
  {
    var t := s.sleeping[..k];
    assert t[1..] == s1.sleeping[..k - 1];
    WakeLevels(s, s1, t);
  }

  lemma WakeLevels(s: St, s1: St, t: seq<int>)
    requires t != [] && Slot(s.pt, t[0]) && |s.ready| == N_PRIOS && s.pt[t[0]].priority < N_PRIOS
    requires s1.pt == s.pt[t[0] := s.pt[t[0]].(state := Ready)]
    requires s1.ready == s.ready[s.pt[t[0]].priority := s.ready[s.pt[t[0]].priority] + [t[0]]]
    ensures forall r :: Gains(r, s1, t[1..]) ==> Gains(r, s, t)
  {
    ByLevelSame(t[1..], s.pt, s1.pt, 0);
    ByLevelSame(t[1..], s.pt, s1.pt, 1);
    ByLevelSame(t[1..], s.pt, s1.pt, 2);
  }

  lemma SortedDue(q: seq<int>, keys: seq<nat>, time: nat)
    requires SortedBy(q, keys)
    ensures var k := DueCount(q, keys, time);
      forall i :: k <= i < |q| ==> KeyOf(keys, q[i]) > time
  {
  }

  // ---- counting down -----------------------------------------------------------------------

  /** Ticks until a sleeper with this wakeup time is woken, at this system time. */
  function Due(time: nat, wakeup: nat): nat {
    if wakeup > time then wakeup - time
    else if time == TWO_32 - 1 then wakeup + 1
    else 1
  }

  /** After the wake loop of a tick everyone still asleep has a later wakeup time. */
  lemma TickSleepers(s: St, p: int)
    requires Good(s) && SleepInv(s) && IsIn(s.pt, p, Sleeping)
    ensures WellFormed(s)
    ensures var r := WakeAll(s.(time := (s.time + 1) % TWO_32));
      && r.Next? && Good(r.s) && Slot(r.s.pt, p)
      && SleepInv(r.s)
      && (if s.pt[p].wakeup > r.s.time then r.s.pt[p] == s.pt[p] else r.s.pt[p] == s.pt[p].(state := Ready))
      && r.s.time == (s.time + 1) % TWO_32
  {
    TickWakes(s);
    var s0 := s.(time := (s.time + 1) % TWO_32);
    TimeGood(s, s0.time);
    WakeSleeper(s0, p);
    WakeAllSleepInv(s0);
  }

  lemma WakeSleeper(s: St, p: int)
    requires Good(s) && SleepInv(s) && IsIn(s.pt, p, Sleeping)
    ensures |s.ready| == N_PRIOS && WakeAll(s).Next?
    ensures var s' := WakeAll(s).s;
      && Slot(s'.pt, p) && s'.time == s.time
      && if s.pt[p].wakeup > s.time then s'.pt[p] == s.pt[p] else s'.pt[p] == s.pt[p].(state := Ready)
  {
    WakeAllPcbs(s);
    WakeAllTime(s);
    var k := DueCount(s.sleeping, Wakeups(s.pt), s.time);
    SortedDue(s.sleeping, Wakeups(s.pt), s.time);
    assert InPlace(s.pt, s.ready, s.sleeping, p);
    OccIn(s.sleeping, p);
    var i :| 0 <= i < |s.sleeping| && s.sleeping[i] == p;
    WokenPrefix(s, WakeAll(s).s, k, p, i);
  }

  lemma {:induction false} WakeAllTime(s: St)
    requires |s.ready| == N_PRIOS && WakeAll(s).Next?
    ensures WakeAll(s).s.time == s.time
    decreases |s.sleeping|
  {
    if s.sleeping != [] && KeyOf(Wakeups(s.pt), s.sleeping[0]) <= s.time { WakeAllTime(Woken(s).s); }
  }

  lemma WokenPrefix(s: St, s': St, k: nat, p: int, i: nat)
    requires Slot(s.pt, p) && |s'.pt| == |s.pt| && k <= |s.sleeping| && i < |s.sleeping| && s.sleeping[i] == p
    requires forall j :: 0 <= j < k ==> KeyOf(Wakeups(s.pt), s.sleeping[j]) <= s.time
    requires forall j :: k <= j < |s.sleeping| ==> KeyOf(Wakeups(s.pt), s.sleeping[j]) > s.time
    requires WokenPcb(s, s', k, p)
    ensures if s.pt[p].wakeup > s.time then s'.pt[p] == s.pt[p] else s'.pt[p] == s.pt[p].(state := Ready)
  {
    var due := s.sleeping[..k];
    if p in due {
      var j :| 0 <= j < k && due[j] == p;
      assert s.sleeping[j] == p;
    } else {
      forall j | 0 <= j < k ensures s.sleeping[j] in due { assert due[j] == s.sleeping[j]; }
      assert i >= k;
    }
  }

  lemma WakeAllSleepInv(s: St)
    requires Good(s) && SleepInv(s)
    ensures |s.ready| == N_PRIOS && WakeAll(s).Next? && SleepInv(WakeAll(s).s)
    ensures forall x :: x in WakeAll(s).s.sleeping ==> KeyOf(Wakeups(WakeAll(s).s.pt), x) > s.time
  {
    WakeAllGood(s);
    WakeAllPcbs(s);
    var s' := WakeAll(s).s;
    var k := DueCount(s.sleeping, Wakeups(s.pt), s.time);
    WokenKeys(s, s', k);
    SortedDue(s.sleeping, Wakeups(s.pt), s.time);
    RestSorted(s.sleeping, k, Wakeups(s.pt), s.time);
  }

  /** Waking changes no wakeup time. */
  lemma WokenKeys(s: St, s': St, k: nat)
    requires k <= |s.sleeping| && |s'.pt| == |s.pt| && WordWakeups(s.pt)
    requires forall p: int :: WokenPcb(s, s', k, p)
    ensures Wakeups(s'.pt) == Wakeups(s.pt) && WordWakeups(s'.pt)
  {
    forall i | 0 <= i < |s.pt| ensures s'.pt[i].wakeup == s.pt[i].wakeup { assert WokenPcb(s, s', k, i); }
    forall p: int | IsIn(s'.pt, p, Sleeping) ensures s'.pt[p].wakeup < TWO_32 {
      assert WokenPcb(s, s', k, p);
      assert IsIn(s.pt, p, Sleeping);
    }
  }

  lemma RestSorted(q: seq<int>, k: nat, keys: seq<nat>, time: nat)
    requires SortedBy(q, keys) && k <= |q| && forall i :: k <= i < |q| ==> KeyOf(keys, q[i]) > time
    ensures SortedBy(q[k..], keys) && forall x :: x in q[k..] ==> KeyOf(keys, x) > time
  {
    var r := q[k..];
    assert forall i :: 0 <= i < |r| ==> r[i] == q[k + i];
  }

  lemma UndExpire(s: St)
    requires Good(s) && WellFormed(s) && Expire(s).Next?
    ensures Undisturbed(s, Expire(s).s)
  {
    ExpireIs(s);
    OlderGood(s);
    CurrentRuns(s);
    UndOlder(s);
    if s.pt[s.current].quantum == 1 {
      UndYield(Older(s));
      UndisturbedTrans(s, Older(s), Yield(Older(s)).s);
    }
  }

  lemma UndOlder(s: St)
    requires IsIn(s.pt, s.current, Running) && s.pt[s.current].quantum > 0
    ensures Undisturbed(s, Older(s))
  {
    KeptOne(s.pt, s.current, Older(s).pt[s.current]);
  }

  /** One tick, in terms of the clock: who sleeps on and who wakes. */
  lemma TickWakesOrNot(s: St, p: int)
    requires Good(s) && SleepInv(s) && IsIn(s.pt, p, Sleeping) && Step(s, ClockTick).Next?
    ensures var s' := Step(s, ClockTick).s;
      && s'.time == (s.time + 1) % TWO_32 && Slot(s'.pt, p)
      && (if s.pt[p].wakeup > s'.time then IsIn(s'.pt, p, Sleeping) && s'.pt[p].wakeup == s.pt[p].wakeup
          else Runnable(s', p))
  {
    TickSleepers(s, p);
    TickWakes(s);
    var s1 := WakeAll(s.(time := (s.time + 1) % TWO_32)).s;
    CurrentRuns(s1);
    UndExpire(s1);
    if IsIn(s1.pt, p, Ready) {
      ExpireRunnable(s1, p);
    } else {
      assert StillAsleep(s1.pt, Expire(s1).s.pt, p);
    }
  }

  lemma DueStep(time: nat, wakeup: nat)
    requires time < TWO_32 && wakeup < TWO_32
    ensures var t := (time + 1) % TWO_32;
      && (Due(time, wakeup) == 1 <==> wakeup <= t)
      && (wakeup > t ==> Due(t, wakeup) == Due(time, wakeup) - 1)
      && Due(time, wakeup) >= 1
  {
  }

  /** One tick: a sleeper wakes exactly when one tick was due, and otherwise one tick less is. */
  lemma TickCountsDown(s: St, p: int)
    requires Good(s) && SleepInv(s) && IsIn(s.pt, p, Sleeping) && Step(s, ClockTick).Next?
    ensures var s' := Step(s, ClockTick).s;
      && Slot(s'.pt, p)
      && (Due(s.time, s.pt[p].wakeup) == 1 ==> Runnable(s', p))
      && (Due(s.time, s.pt[p].wakeup) > 1 ==>
            && IsIn(s'.pt, p, Sleeping)
            && Due(s'.time, s'.pt[p].wakeup) == Due(s.time, s.pt[p].wakeup) - 1)
  {
    TickWakesOrNot(s, p);
    DueStep(s.time, s.pt[p].wakeup);
  }

  lemma ExpireRunnable(s: St, p: int)
    requires Good(s) && WellFormed(s) && IsIn(s.pt, p, Ready) && Expire(s).Next?
    ensures Runnable(Expire(s).s, p)
  {
    ExpireIs(s);
    OlderGood(s);
    CurrentRuns(s);
    if s.pt[s.current].quantum == 1 { YieldRunnable(Older(s), p); }
  }

  lemma YieldRunnable(s: St, p: int)
    requires Inv(s, s.current) && s.current != NIL && WellFormed(s) && IsIn(s.pt, p, Ready) && Yield(s).Next?
    ensures Runnable(Yield(s).s, p)
  {
    YieldShape(s);
    DispatchKeepsRunnable(Schedule(s, s.current).s, p);
  }

  // ---- going to sleep ------------------------------------------------------------------------

  /** The sleeper's new wakeup time does not concern the order of those asleep already. */
  lemma AsleepSorted(s: St, x: int, c: Pcb)
    requires Inv(s, x) && SleepInv(s) && IsIn(s.pt, x, Running)
    ensures SortedBy(s.sleeping, Wakeups(s.pt[x := c]))
  {
    var pt := s.pt[x := c];
    forall i | 0 <= i < |s.sleeping| ensures KeyOf(Wakeups(pt), s.sleeping[i]) == KeyOf(Wakeups(s.pt), s.sleeping[i]) {
      OccIn(s.sleeping, s.sleeping[i]);
      assert InPlace(s.pt, s.ready, s.sleeping, s.sleeping[i]);
    }
  }

  lemma AsleepSleepInv(s: St, n: Word)
    requires Good(s) && SleepInv(s) && TakeQnode(s.mem).Some?
    ensures Slot(s.pt, s.current) && SleepInv(Asleep(s, n))
    ensures forall p: int :: StillAsleep(s.pt, Asleep(s, n).pt, p)
  {
    CurrentRuns(s);
    var x, c := s.current, Sleeper(s, n);
    AsleepSorted(s, x, c);
    InsertStable(s.sleeping, x, Wakeups(s.pt[x := c]));
  }

  lemma CalledSleepInv(s: St, a: Word)
    requires Good(s) && SleepInv(s)
    ensures Slot(s.pt, s.current) && SleepInv(Called(s, a)) && Undisturbed(s, Called(s, a))
  {
    KeptOne(s.pt, s.current, s.pt[s.current].(arg := a));
    KeptSleepInv(s, Called(s, a));
  }

  lemma SleepSteps(s: St, n: Word)
    requires Good(s) && SleepInv(s) && n > 0 && WellFormed(s) && Sleep(s, n).Next?
    ensures var s' := Sleep(s, n).s; var p := s.current;
      && SleepInv(s') && s'.time == s.time && |s'.pt| == |s.pt|
      && IsIn(s'.pt, p, Sleeping) && s'.pt[p].wakeup == (s.time + n) % TWO_32
      && (forall q: int :: StillAsleep(s.pt, s'.pt, q))
  {
    var s2 := SleepIs(s, n);
    AsleepSleepInv(s, n);
    UndDispatch(s2);
    DispatchSleepInv(s2);
    var s' := Sleep(s, n).s;
    assert StillAsleep(s2.pt, s'.pt, s.current);
    forall q: int ensures StillAsleep(s.pt, s'.pt, q) {
      assert StillAsleep(s.pt, s2.pt, q) && StillAsleep(s2.pt, s'.pt, q);
    }
  }

  /** sleep(n), n > 0: the caller sleeps with wakeup = time + n modulo 2^32; others sleep on. */
  lemma SleepStep(s: St, e: Event)
    requires Good(s) && SleepInv(s) && PutsToSleep(e) && Step(s, e).Next?
    ensures var s' := Step(s, e).s; var p := s.current;
      && SleepInv(s') && s'.time == s.time && |s'.pt| == |s.pt|
      && IsIn(s'.pt, p, Sleeping) && s'.pt[p].wakeup == (s.time + e.arg) % TWO_32
      && (forall q: int :: StillAsleep(s.pt, s'.pt, q))
  {
    CurrentRuns(s);
    CalledGood(s, e.arg);
    CalledSleepInv(s, e.arg);
    var s1 := Called(s, e.arg);
    SleepSteps(s1, e.arg);
    forall q: int ensures StillAsleep(s.pt, Step(s, e).s.pt, q) {
      assert StillAsleep(s.pt, s1.pt, q) && StillAsleep(s1.pt, Step(s, e).s.pt, q);
    }
  }

  lemma DispatchSleepInv(s: St)
    requires Inv(s, NIL) && SleepInv(s) && Dispatch(s).Next?
    ensures SleepInv(Dispatch(s).s)
  {
    UndDispatch(s);
    var s' := Dispatch(s).s;
    assert forall i :: 0 <= i < |s.pt| ==> s'.pt[i].wakeup == s.pt[i].wakeup;
    assert Wakeups(s'.pt) == Wakeups(s.pt);
    forall p: int | IsIn(s'.pt, p, Sleeping) ensures s'.pt[p].wakeup < TWO_32 { assert StillAsleep(s.pt, s'.pt, p); }
  }

  // ---- runs ------------------------------------------------------------------------------------

  lemma TickSleepInv(s: St)
    requires Good(s) && SleepInv(s) && Step(s, ClockTick).Next?
    ensures SleepInv(Step(s, ClockTick).s)
    ensures var s' := Step(s, ClockTick).s; forall x :: x in s'.sleeping ==> KeyOf(Wakeups(s'.pt), x) > s'.time
  {
    TickWakes(s);
    var s0 := s.(time := (s.time + 1) % TWO_32);
    TimeGood(s, s0.time);
    WakeAllSleepInv(s0);
    var s1 := WakeAll(s0).s;
    CurrentRuns(s1);
    UndExpire(s1);
    KeptSleepInv(s1, Expire(s1).s);
    forall x | x in s1.sleeping ensures KeyOf(Wakeups(Expire(s1).s.pt), x) == KeyOf(Wakeups(s1.pt), x) {
      OccIn(s1.sleeping, x);
      assert InPlace(s1.pt, s1.ready, s1.sleeping, x);
      assert StillAsleep(s1.pt, Expire(s1).s.pt, x);
    }
  }

  lemma StepSleepInv(s: St, e: Event)
    requires Good(s) && SleepInv(s) && Step(s, e).Next?
    ensures SleepInv(Step(s, e).s)
  {
    if e.ClockTick? {
      TickSleepInv(s);
    } else if PutsToSleep(e) {
      SleepStep(s, e);
    } else {
      UndCall(s, e);
      KeptSleepInv(s, Step(s, e).s);
    }
  }

  /** Any step: a sleeper with more than one tick to go sleeps on, counting only ticks. */
  lemma StepCountsDown(s: St, e: Event, p: int)
    requires Good(s) && SleepInv(s) && IsIn(s.pt, p, Sleeping) && Step(s, e).Next?
    requires e.ClockTick? ==> Due(s.time, s.pt[p].wakeup) > 1
    ensures var s' := Step(s, e).s;
      && IsIn(s'.pt, p, Sleeping)
      && Due(s'.time, s'.pt[p].wakeup) == Due(s.time, s.pt[p].wakeup) - (if e.ClockTick? then 1 else 0)
  {
    if e.ClockTick? {
      TickCountsDown(s, p);
    } else if PutsToSleep(e) {
      SleepStep(s, e);
      assert StillAsleep(s.pt, Step(s, e).s.pt, p);
    } else {
      UndCall(s, e);
      assert StillAsleep(s.pt, Step(s, e).s.pt, p);
    }
  }

  /** Before its tick has come a sleeper is still asleep, whatever else happens. */
  lemma {:induction false} SleepsUntilDue(s: St, es: seq<Event>, p: int)
    requires Good(s) && SleepInv(s) && IsIn(s.pt, p, Sleeping) && Run(s, es).Next?
    requires Ticks(es) < Due(s.time, s.pt[p].wakeup)
    ensures var s' := Run(s, es).s;
      && Good(s') && SleepInv(s') && IsIn(s'.pt, p, Sleeping)
      && Due(s'.time, s'.pt[p].wakeup) == Due(s.time, s.pt[p].wakeup) - Ticks(es)
    decreases |es|
  {
    if es != [] {
      StepGood(s, es[0]);
      StepSleepInv(s, es[0]);
      StepCountsDown(s, es[0], p);
      SleepsUntilDue(Step(s, es[0]).s, es[1..], p);
    }
  }

  /** At that very tick it is made ready. */
  lemma WakesWhenDue(s: St, es: seq<Event>, p: int)
    requires Good(s) && SleepInv(s) && IsIn(s.pt, p, Sleeping) && Run(s, es).Next?
    requires Ticks(es) + 1 == Due(s.time, s.pt[p].wakeup)
    requires Step(Run(s, es).s, ClockTick).Next?
    ensures Runnable(Step(Run(s, es).s, ClockTick).s, p)
  {
    SleepsUntilDue(s, es, p);
    TickCountsDown(Run(s, es).s, p);
  }

  /** sleep(n) lasts exactly n ticks if and only if the wakeup time does not wrap, or the clock
      is about to; otherwise it lasts a single tick. */
  lemma SleepLength(s: St, e: Event)
    requires Good(s) && SleepInv(s) && PutsToSleep(e) && Step(s, e).Next?
    ensures var s' := Step(s, e).s; var p := s.current; var n := e.arg;
      && IsIn(s'.pt, p, Sleeping)
      && (Due(s'.time, s'.pt[p].wakeup) == n <==> s.time + n < TWO_32 || s.time == TWO_32 - 1)
      && Due(s'.time, s'.pt[p].wakeup) == if s.time + n < TWO_32 || s.time == TWO_32 - 1 then n else 1
  {
    SleepStep(s, e);
  }
}
