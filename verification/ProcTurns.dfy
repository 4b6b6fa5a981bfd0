/**
 Who runs next: for each event after which the processor may change hands, the processes that join the
 ready queues, in which order, and the one that is taken from them.
 */
module ProcTurns {
  import opened Wrappers
  import opened QueueSpec
  import opened ProcSpec
  import opened ProcSched
  import opened ProcFamily
  import opened ProcInv
  import opened ProcExit
  import opened ProcSteps
  import opened ProcSleep
  import opened ProcAnswers

  /** The ready queues once the processes of t have joined them, each at the end of its level. */
  ghost function Joined(s: St, t: seq<int>): seq<seq<int>>
    requires |s.ready| == 3
  {
    [s.ready[0] + ByLevel(t, s.pt, 0), s.ready[1] + ByLevel(t, s.pt, 1), s.ready[2] + ByLevel(t, s.pt, 2)]
  }

  /** The process that now runs was the first one of the first level that is not empty, and has a new
      quantum. */
  ghost predicate Picks(ready: seq<seq<int>>, s': St) {
    exists i: nat :: i < |ready| && PickedFrom(ready, s', i)
  }

  ghost predicate PickedFrom(ready: seq<seq<int>>, s': St, i: nat)
    requires i < |ready|
  {
    && (forall j :: 0 <= j < i ==> ready[j] == [])
    && ready[i] != [] && s'.current == ready[i][0] && s'.ready == ready[i := ready[i][1..]]
    && Slot(s'.pt, s'.current) && s'.pt[s'.current].state == Running && s'.pt[s'.current].quantum == 3
  }

  lemma DispatchPicks(s: St)
    requires Inv(s, NIL) && |s.ready| == N_PRIOS && Dispatch(s).Next?
    ensures Picks(s.ready, Dispatch(s).s)
    ensures forall p: int :: Slot(s.pt, p) && s.pt[p].state != Ready ==> Dispatch(s).s.pt[p] == s.pt[p]
  {
    var i := TopLevel(s.ready);
    var x := s.ready[i][0];
    HeadOcc(s.ready[i], x);
    assert InPlace(s.pt, s.ready, s.sleeping, x);
    assert PickedFrom(s.ready, Dispatch(s).s, i);
  }

  // ---- joining the ready queues --------------------------------------------------------------------

  ghost predicate SameLevels(pt: seq<Pcb>, pt': seq<Pcb>) {
    |pt'| == |pt| && forall i :: 0 <= i < |pt| ==> pt'[i].priority == pt[i].priority
  }

  lemma {:induction false} ByLevelJoin(t: seq<int>, u: seq<int>, pt: seq<Pcb>, q: nat)
    ensures ByLevel(t + u, pt, q) == ByLevel(t, pt, q) + ByLevel(u, pt, q)
  {
    if t == [] {
      assert t + u == u;
    } else {
      assert (t + u)[1..] == t[1..] + u;
      ByLevelJoin(t[1..], u, pt, q);
    }
  }

  lemma JoinedThen(a: St, b: St, t: seq<int>, u: seq<int>)
    requires |a.ready| == 3 && b.ready == Joined(a, t) && SameLevels(a.pt, b.pt)
    ensures Joined(b, u) == Joined(a, t + u)
  {
    JoinedLevel(a, b, t, u, 0);
    JoinedLevel(a, b, t, u, 1);
    JoinedLevel(a, b, t, u, 2);
  }

  lemma JoinedLevel(a: St, b: St, t: seq<int>, u: seq<int>, q: nat)
    requires |a.ready| == 3 == |b.ready| && q < 3 && b.ready[q] == a.ready[q] + ByLevel(t, a.pt, q)
    requires SameLevels(a.pt, b.pt)
    ensures b.ready[q] + ByLevel(u, b.pt, q) == a.ready[q] + ByLevel(t + u, a.pt, q)
  {
    ByLevelSame(u, a.pt, b.pt, q);
    ByLevelJoin(t, u, a.pt, q);
  }

  lemma NoneJoins(s: St)
    requires |s.ready| == 3
    ensures Joined(s, []) == s.ready
  {
    assert s.ready == [s.ready[0], s.ready[1], s.ready[2]];
    assert forall q :: 0 <= q < 3 ==> s.ready[q] + [] == s.ready[q];
  }

  /** Queues that differ from b's by nothing but bookkeeping in the PCBs. */
  lemma JoinedSame(a: St, b: St, t: seq<int>)
    requires |a.ready| == 3 && b.ready == a.ready && SameLevels(a.pt, b.pt)
    ensures Joined(b, t) == Joined(a, t)
  {
    NoneJoins(a);
    JoinedThen(a, b, [], t);
    assert [] + t == t;
  }

  lemma ByLevelOne(x: int, pt: seq<Pcb>, q: nat)
    requires Slot(pt, x)
    ensures ByLevel([x], pt, q) == if pt[x].priority == q then [x] else []
  {
    assert [x][1..] == [];
  }

  lemma ScheduleJoins(s: St, x: int)
    requires |s.ready| == N_PRIOS && Schedule(s, x).Next?
    ensures Schedule(s, x).s.ready == Joined(s, [x]) && SameLevels(s.pt, Schedule(s, x).s.pt)
  {
    NoneJoins(s);
    ByLevelOne(x, s.pt, 0);
    ByLevelOne(x, s.pt, 1);
    ByLevelOne(x, s.pt, 2);
  }

  lemma YieldTurn(s: St)
    requires Inv(s, s.current) && s.current != NIL && NoLostWakeup(s.pt) && WellFormed(s) && Yield(s).Next?
    ensures Picks(Joined(s, [s.current]), Yield(s).s) && Yield(s).s.sleeping == s.sleeping
  {
    CurrentRuns(s);
    ScheduleJoins(s, s.current);
    InvSchedule(s, s.current, s.current);
    DispatchPicks(Schedule(s, s.current).s);
  }

  // ---- the clock -------------------------------------------------------------------------------------

  /** A tick: those who are due join the ready queues first, in the order of the sleep queue; then, if
      the quantum has run out, the one that ran; and only then is the next one taken. */
  lemma TickTurn(s: St)
    requires Good(s) && Step(s, ClockTick).Next?
    ensures |s.ready| == 3 && Slot(s.pt, s.current)
    ensures var s' := Step(s, ClockTick).s; var p := s.current;
      var time := (s.time + 1) % 0x1_0000_0000;
      var k := DueCount(s.sleeping, Wakeups(s.pt), time);
      && s'.time == time && s'.sleeping == s.sleeping[k..]
      && (s.pt[p].quantum == 1 ==> Picks(Joined(s, s.sleeping[..k] + [p]), s'))
      && (s.pt[p].quantum != 1 ==>
            s'.current == p && s'.pt[p] == s.pt[p].(quantum := s.pt[p].quantum - 1)
            && s'.ready == Joined(s, s.sleeping[..k]))
  {
    CurrentRuns(s);
    TickWakes(s);
    var s0, s1 := TickInto(s);
    var k := DueCount(s.sleeping, Wakeups(s.pt), s0.time);
    WakeTurn(s0, s1, k);
    assert Joined(s0, s.sleeping[..k]) == Joined(s, s.sleeping[..k]);
    ExpireIs(s1);
    OlderGood(s1);
    if s.pt[s.current].quantum == 1 {
      YieldTurn(Older(s1));
      JoinedThen(s, Older(s1), s.sleeping[..k], [s.current]);
      YieldTime(Older(s1));
    }
  }

  lemma WakeTurn(s: St, s1: St, k: nat)
    requires Good(s) && |s.ready| == N_PRIOS && WakeAll(s) == Next(s1)
    requires k == DueCount(s.sleeping, Wakeups(s.pt), s.time)
    ensures s1.ready == Joined(s, s.sleeping[..k]) && SameLevels(s.pt, s1.pt) && s1.sleeping == s.sleeping[k..]
  {
    WakeAllOrder(s);
    WakeAllPcbs(s);
    forall i | 0 <= i < |s.pt| ensures s1.pt[i].priority == s.pt[i].priority { assert WokenPcb(s, s1, k, i); }
  }

  lemma YieldTime(s: St)
    requires WellFormed(s) && Yield(s).Next?
    ensures Yield(s).s.time == s.time
  {
  }

  // ---- sleep -----------------------------------------------------------------------------------------

  /** p stands behind all who are due no later than w, and before all others. */
  ghost predicate Queued(q: seq<int>, q': seq<int>, p: int, w: nat, pt: seq<Pcb>) {
    exists k: nat :: QueuedAt(q, q', p, w, pt, k)
  }

  ghost predicate QueuedAt(q: seq<int>, q': seq<int>, p: int, w: nat, pt: seq<Pcb>, k: nat) {
    && k <= |q| && q' == q[..k] + [p] + q[k..]
    && (forall i :: 0 <= i < k ==> Slot(pt, q[i]) && pt[q[i]].wakeup <= w)
    && (forall i :: k <= i < |q| ==> Slot(pt, q[i]) && w < pt[q[i]].wakeup)
  }

  /** sleep(0) puts the caller at the end of its level; sleep(n) puts it to bed. */
  lemma SleepTurn(s: St, arg: Word, arg3: Word, io: int)
    requires Good(s) && SleepInv(s) && Step(s, Trap(6, arg, arg3, io)).Next?
    ensures |s.ready| == 3 && Slot(s.pt, s.current)
    ensures var s' := Step(s, Trap(6, arg, arg3, io)).s; var p := s.current;
      var w := (s.time + arg) % 0x1_0000_0000;
      && (arg == 0 ==> Picks(Joined(s, [p]), s') && s'.sleeping == s.sleeping)
      && (arg != 0 ==>
            Picks(s.ready, s') && Queued(s.sleeping, s'.sleeping, p, w, s.pt)
            && |s'.pt| == |s.pt| && s'.pt[p] == s.pt[p].(arg := arg, state := Sleeping, wakeup := w))
  {
    CurrentRuns(s);
    CalledGood(s, arg);
    var s1 := Called(s, arg);
    assert Step(s, Trap(6, arg, arg3, io)) == Sleep(s1, arg);
    if arg == 0 {
      YieldTurn(s1);
      JoinedSame(s, s1, [s.current]);
    } else {
      BedTurn(s1, arg);
      BedQueued(s, arg, Sleep(s1, arg).s.sleeping);
    }
  }

  lemma BedTurn(s: St, n: Word)
    requires Good(s) && WellFormed(s) && n != 0 && Sleep(s, n).Next?
    ensures TakeQnode(s.mem).Some?
    ensures var s' := Sleep(s, n).s; var w := (s.time + n) % TWO_32;
      && Picks(s.ready, s') && s'.sleeping == Asleep(s, n).sleeping
      && |s'.pt| == |s.pt| && s'.pt[s.current] == s.pt[s.current].(state := Sleeping, wakeup := w)
  {
    CurrentRuns(s);
    var a := SleepIs(s, n);
    BedPicks(a, s.current);
  }

  lemma BedQueued(s: St, n: Word, q: seq<int>)
    requires Good(s) && SleepInv(s) && IsIn(s.pt, s.current, Running) && TakeQnode(s.mem).Some?
    requires q == Asleep(Called(s, n), n).sleeping
    ensures Queued(s.sleeping, q, s.current, (s.time + n) % TWO_32, s.pt)
  {
    var s1 := Called(s, n);
    CalledGood(s, n);
    CalledSleepInv(s, n);
    BedPlace(s1, n);
    QueuedSame(s.sleeping, q, s.current, (s.time + n) % TWO_32, s1.pt, s.pt);
  }

  lemma BedPicks(a: St, p: int)
    requires Inv(a, NIL) && |a.ready| == N_PRIOS && Dispatch(a).Next? && IsIn(a.pt, p, Sleeping)
    ensures var s' := Dispatch(a).s;
      Picks(a.ready, s') && s'.sleeping == a.sleeping && |s'.pt| == |a.pt| && s'.pt[p] == a.pt[p]
  {
    DispatchPicks(a);
  }

  lemma BedPlace(s: St, n: Word)
    requires Good(s) && SleepInv(s) && IsIn(s.pt, s.current, Running) && TakeQnode(s.mem).Some?
    ensures Queued(s.sleeping, Asleep(s, n).sleeping, s.current, (s.time + n) % TWO_32, s.pt)
  {
    var q, p, c := s.sleeping, s.current, Sleeper(s, n);
    AsleepSorted(s, p, c);
    forall i | 0 <= i < |q| ensures Slot(s.pt, q[i]) && KeyOf(Wakeups(s.pt[p := c]), q[i]) == s.pt[q[i]].wakeup {
      BedKey(s, p, c, i);
    }
    InsertPlace(q, p, Wakeups(s.pt[p := c]), s.pt);
  }

  lemma InsertPlace(q: seq<int>, p: int, keys: seq<nat>, pt: seq<Pcb>)
    requires SortedBy(q, keys)
    requires forall i :: 0 <= i < |q| ==> Slot(pt, q[i]) && KeyOf(keys, q[i]) == pt[q[i]].wakeup
    ensures Queued(q, Insert(q, p, ByWakeup, keys), p, KeyOf(keys, p), pt)
  {
    InsertStable(q, p, keys);
    var r := Insert(q, p, ByWakeup, keys);
    var k :| 0 <= k <= |q| && r == q[..k] + [p] + q[k..]
      && (forall i :: 0 <= i < k ==> KeyOf(keys, q[i]) <= KeyOf(keys, p))
      && (forall i :: k <= i < |q| ==> KeyOf(keys, p) < KeyOf(keys, q[i]));
    assert QueuedAt(q, r, p, KeyOf(keys, p), pt, k);
  }

  /** Whoever is in the sleep queue sleeps, and is not the one that runs. */
  lemma BedKey(s: St, p: int, c: Pcb, i: nat)
    requires Inv(s, p) && IsIn(s.pt, p, Running) && i < |s.sleeping|
    ensures Slot(s.pt, s.sleeping[i]) && KeyOf(Wakeups(s.pt[p := c]), s.sleeping[i]) == s.pt[s.sleeping[i]].wakeup
  {
    OccIn(s.sleeping, s.sleeping[i]);
    assert InPlace(s.pt, s.ready, s.sleeping, s.sleeping[i]);
  }

  lemma QueuedSame(q: seq<int>, q': seq<int>, p: int, w: nat, pt: seq<Pcb>, pt': seq<Pcb>)
    requires Queued(q, q', p, w, pt) && |pt'| == |pt|
    requires forall i :: 0 <= i < |pt| ==> pt'[i].wakeup == pt[i].wakeup
    ensures Queued(q, q', p, w, pt')
  {
    var k: nat :| QueuedAt(q, q', p, w, pt, k);
    assert QueuedAt(q, q', p, w, pt', k);
  }

  // ---- wait and exit ---------------------------------------------------------------------------------

  /** wait(), if it blocks: nobody joins. */
  lemma WaitTurn(s: St, arg: Word, arg3: Word, io: int)
    requires Good(s) && Step(s, Trap(1, arg, arg3, io)).Next? && Step(s, Trap(1, arg, arg3, io)).s.current != s.current
    ensures Picks(s.ready, Step(s, Trap(1, arg, arg3, io)).s)
  {
    CurrentRuns(s);
    CalledGood(s, arg);
    InvBlock(Called(s, arg), s.current);
    var s1 := Called(s, arg);
    DispatchPicks(s1.(pt := s1.pt[s.current := s1.pt[s.current].(state := Waiting)]));
  }

  /** init waits and will inherit a child that has exited. */
  ghost predicate Inherits(s: St) {
    IsIn(s.pt, s.init, Waiting) && exists z :: DeadKid(s, z)
  }

  /** Who is told of an exit, in this order: init, if it inherits a dead child; and the parent, if it waits
      and has not just been told. */
  ghost function Roused(s: St): seq<int>
    requires Slot(s.pt, s.current)
  {
    var parent := s.pt[s.current].parent;
    (if Inherits(s) then [s.init] else [])
    + (if IsIn(s.pt, parent, Waiting) && !(Inherits(s) && parent == s.init) then [parent] else [])
  }

  /** exit(): those who are told join, and then the next one is taken. */
  lemma ExitTurn(s: St, code: int, arg: Word, arg3: Word, io: int)
    requires Good(s) && (code <= 0 || code >= 10) && Step(s, Trap(code, arg, arg3, io)).Next?
    ensures |s.ready| == 3 && Slot(s.pt, s.current)
    ensures Picks(Joined(s, Roused(s)), Step(s, Trap(code, arg, arg3, io)).s)
  {
    CurrentRuns(s);
    var a: Word := if code == 0 then arg else S_BAD_SYSCALL + TWO_32;
    CalledGood(s, a);
    var s1 := Called(s, a);
    ServesExit(s, code, arg, arg3, io, a);
    ExitPicks(s1, a);
    assert forall z: int :: DeadKid(s1, z) == DeadKid(s, z);
    JoinedSame(s, s1, Roused(s));
  }

  lemma ExitPicks(s: St, a: Word)
    requires Good(s) && WellFormed(s) && Exit(s, a).Next?
    ensures Picks(Joined(s, Roused(s)), Exit(s, a).s)
  {
    ExitIs(s, a);
    BequeathGood(s, a);
    var parent, s2 := s.pt[s.current].parent, Bequeath(s, a).s;
    var t := if Inherits(s) then [s.init] else [];
    var u := if IsIn(s2.pt, parent, Waiting) then [parent] else [];
    BequeathJoins(s, a);
    FinishPicks(s2, s.current, parent);
    assert t + u == Roused(s) by { assert StillWaits(s, s2.pt, parent); }
    JoinedThen(s, s2, t, u);
  }

  lemma FinishPicks(s: St, p: int, parent: int)
    requires Inv(s, p) && IsIn(s.pt, p, Running) && p != s.init && NoLostWakeup(s.pt) && NoKids(s.pt, p)
    requires Slot(s.pt, parent) && parent == s.pt[p].parent && parent != p && |s.ready| == N_PRIOS
    requires Finish(s, p, parent).Next? && Dispatch(Finish(s, p, parent).s).Next?
    ensures Picks(Joined(s, if IsIn(s.pt, parent, Waiting) then [parent] else []), Dispatch(Finish(s, p, parent).s).s)
  {
    FinishGood(s, p, parent);
    FinishJoins(s, p, parent);
    DispatchPicks(Finish(s, p, parent).s);
  }

  lemma FinishJoins(s: St, p: int, parent: int)
    requires Slot(s.pt, p) && Slot(s.pt, parent) && p != parent && |s.ready| == N_PRIOS && Finish(s, p, parent).Next?
    ensures Finish(s, p, parent).s.ready == Joined(s, if IsIn(s.pt, parent, Waiting) then [parent] else [])
  {
    NoneJoins(s);
    var s0 := s.(hist := s.hist.(exits := s.hist.exits + [Exited(s.pt[p].pid, s.pt[p].status)]));
    if s.pt[parent].state == Waiting {
      var s1 := StatusReturn(s0, parent, p);
      ScheduleJoins(s1, parent);
      JoinedSame(s, s1, [parent]);
    }
  }

  lemma BequeathJoins(s: St, a: Word)
    requires Good(s) && WellFormed(s) && s.current != s.init
    ensures Bequeath(s, a).Next?
    ensures var s2 := Bequeath(s, a).s;
      && s2.ready == Joined(s, if Inherits(s) then [s.init] else []) && SameLevels(s.pt, s2.pt)
      && forall y: int :: StillWaits(s, s2.pt, y)
  {
    BequeathGood(s, a);
    var p := s.current;
    var pt1 := s.pt[p := s.pt[p].(status := Wrap32(a))];
    var z := LastDeadChild(pt1, p, |pt1|);
    var s1 := s.(pt := Adopt(pt1, p, s.init));
    Adopts(s, s1, p, Wrap32(a));
    DeadIffInherits(s, pt1, z);
    if Inherits(s) {
      HeirJoins(s, s1, z);
    } else {
      NoneJoins(s);
      forall y: int ensures StillWaits(s, s1.pt, y) { assert SameState(s.pt, s1.pt, y); }
    }
  }

  lemma HeirJoins(s: St, s1: St, z: int)
    requires SameLevels(s.pt, s1.pt) && s1 == s.(pt := s1.pt) && (forall y: int :: SameState(s.pt, s1.pt, y))
    requires Inherits(s) && IsIn(s1.pt, z, Zombie) && |s.ready| == N_PRIOS && WakeInit(s1, z).Next?
    ensures WakeInit(s1, z).s.ready == Joined(s, [s.init]) && SameLevels(s.pt, WakeInit(s1, z).s.pt)
    ensures forall y: int :: StillWaits(s, WakeInit(s1, z).s.pt, y)
  {
    assert SameState(s.pt, s1.pt, s.init);
    WakeInitJoins(s1, z);
    JoinedSame(s, s1, [s.init]);
    forall y: int ensures StillWaits(s, WakeInit(s1, z).s.pt, y) {
      assert SameState(s.pt, s1.pt, y);
      if y != s.init && y != z { assert SameState(s1.pt, WakeInit(s1, z).s.pt, y); }
    }
  }

  /** Before the report to the parent the same processes wait as at first, but for init if it was told. */
  ghost predicate StillWaits(s: St, pt: seq<Pcb>, y: int) {
    IsIn(pt, y, Waiting) <==> IsIn(s.pt, y, Waiting) && !(Inherits(s) && y == s.init)
  }

  ghost predicate SameState(pt: seq<Pcb>, pt': seq<Pcb>, y: int) {
    IsIn(pt', y, Waiting) <==> IsIn(pt, y, Waiting)
  }

  lemma Adopts(s: St, s1: St, p: int, status: int)
    requires Slot(s.pt, p) && s1 == s.(pt := Adopt(s.pt[p := s.pt[p].(status := status)], p, s.init))
    ensures SameLevels(s.pt, s1.pt) && forall y: int :: SameState(s.pt, s1.pt, y)
  {
  }

  lemma DeadIffInherits(s: St, pt1: seq<Pcb>, z: int)
    requires IsIn(s.pt, s.current, Running) && s.current != s.init
    requires exists st: int :: pt1 == s.pt[s.current := s.pt[s.current].(status := st)]
    requires z == LastDeadChild(pt1, s.current, |pt1|)
    ensures Inherits(s) <==> z != NIL && IsIn(s.pt, s.init, Waiting)
  {
    if z != NIL {
      assert DeadKid(s, z);
    } else {
      forall i | 0 <= i < |s.pt| && i != s.current && s.pt[i].parent == s.current ensures s.pt[i].state != Zombie {
        assert !(ChildOf(pt1, i, s.current) && pt1[i].state == Zombie);
      }
    }
  }

  lemma WakeInitJoins(s: St, z: int)
    requires Slot(s.pt, s.init) && Slot(s.pt, z) && z != s.init && |s.ready| == N_PRIOS && WakeInit(s, z).Next?
    ensures WakeInit(s, z).s.ready == Joined(s, [s.init]) && SameLevels(s.pt, WakeInit(s, z).s.pt)
    ensures forall y: int :: y != s.init && y != z ==> SameState(s.pt, WakeInit(s, z).s.pt, y)
    ensures !IsIn(WakeInit(s, z).s.pt, s.init, Waiting) && !IsIn(WakeInit(s, z).s.pt, z, Waiting)
  {
    var s0 := s.(zombie := RemoveFirst(s.zombie, z), mem := FreeQnode(s.mem));
    var s1 := StatusReturn(s0, s.init, z);
    ScheduleJoins(s1, s.init);
    JoinedSame(s, s1, [s.init]);
  }
}
