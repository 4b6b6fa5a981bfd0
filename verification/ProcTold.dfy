/**
 Who hears what, step by step: a delivery in the log is what the process it goes to finds as
 its return value and behind its status pointer, and nobody but the caller finds anything else.
 */
module ProcTold {
  import opened Wrappers
  import opened QueueSpec
  import opened ProcSpec
  import opened ProcInv
  import opened ProcExit
  import opened ProcSteps

  /** The answer a process has, its PID, its level and its argument are as they were. */
  ghost predicate Quiet(pt: seq<Pcb>, pt': seq<Pcb>, y: int) {
    Slot(pt, y) && Slot(pt', y) ==>
      && pt'[y].ret == pt[y].ret && pt'[y].got == pt[y].got && pt'[y].arg == pt[y].arg
      && pt'[y].pid == pt[y].pid && pt'[y].priority == pt[y].priority
  }

  /** The process in slot y is the one d goes to, and has been told: the PID is its return value, the
      status is where its pointer says, if it gave one. */
  ghost predicate Hears(pt: seq<Pcb>, pt': seq<Pcb>, y: int, d: Delivery) {
    && Slot(pt, y) && Slot(pt', y) && pt[y].pid == d.to && pt'[y].pid == d.to
    && pt'[y].ret == d.what.pid && pt'[y].priority == pt[y].priority
    && (pt'[y].arg != 0 ==> pt'[y].got == Some(d.what.status))
    && (pt'[y].arg == 0 ==> pt'[y].got == pt[y].got)
  }

  /** Slot `who` has been told the one delivery there is; or there is none, if `who` is NIL. */
  ghost predicate Tells(s: St, s': St, who: int) {
    && |s'.pt| == |s.pt|
    && (forall y: int :: y != who ==> Quiet(s.pt, s'.pt, y))
    && (who == NIL ==> s'.hist.log == s.hist.log)
    && (who != NIL ==> |s'.hist.log| == |s.hist.log| + 1 && s'.hist.log[..|s.hist.log|] == s.hist.log
                       && Hears(s.pt, s'.pt, who, s'.hist.log[|s.hist.log|]))
  }

  // ---- composition -------------------------------------------------------------------------------

  lemma HearsThen(a: seq<Pcb>, b: seq<Pcb>, c: seq<Pcb>, y: int, d: Delivery)
    requires |a| == |b| == |c|
    requires (Hears(a, b, y, d) && Quiet(b, c, y)) || (Quiet(a, b, y) && Hears(b, c, y, d))
    ensures Hears(a, c, y, d)
  {
  }

  lemma QuietThen(a: seq<Pcb>, b: seq<Pcb>, c: seq<Pcb>, y: int)
    requires |a| == |b| == |c| && Quiet(a, b, y) && Quiet(b, c, y)
    ensures Quiet(a, c, y)
  {
  }

  /** At most one of two consecutive parts tells somebody something. */
  lemma TellsThen(a: St, b: St, c: St, v: int, w: int)
    requires Tells(a, b, v) && Tells(b, c, w) && (v == NIL || w == NIL)
    ensures Tells(a, c, if v == NIL then w else v)
  {
    var who := if v == NIL then w else v;
    forall y: int | y != who ensures Quiet(a.pt, c.pt, y) { QuietThen(a.pt, b.pt, c.pt, y); }
    if who != NIL { HearsThen(a.pt, b.pt, c.pt, who, c.hist.log[|a.hist.log|]); }
  }

  lemma TellsOne(s: St, s': St, x: int, c: Pcb)
    requires Slot(s.pt, x) && s'.pt == s.pt[x := c] && s'.hist.log == s.hist.log && Quiet(s.pt, s'.pt, x)
    ensures Tells(s, s', NIL)
  {
    forall y: int ensures Quiet(s.pt, s'.pt, y) {}
  }

  // ---- the parts of a step -----------------------------------------------------------------------

  lemma TellsSchedule(s: St, x: int)
    requires |s.ready| == N_PRIOS && Schedule(s, x).Next?
    ensures Tells(s, Schedule(s, x).s, NIL)
  {
    TellsOne(s, Schedule(s, x).s, x, s.pt[x].(state := Ready));
  }

  lemma TellsDispatch(s: St)
    requires |s.ready| == N_PRIOS && Dispatch(s).Next?
    ensures Tells(s, Dispatch(s).s, NIL)
  {
    var x := s.ready[TopLevel(s.ready)][0];
    if Slot(s.pt, x) {
      TellsOne(s, Dispatch(s).s, x, s.pt[x].(state := Running, quantum := Q_STD));
    } else {
      forall y: int ensures Quiet(s.pt, Dispatch(s).s.pt, y) {}
    }
  }

  lemma TellsCleanup(s: St, x: int)
    requires Slot(s.pt, x)
    ensures Tells(s, Cleanup(s, x), NIL)
  {
    TellsOne(s, Cleanup(s, x), x, Cleanup(s, x).pt[x]);
  }

  /** status_return */
  lemma TellsStatus(s: St, y: int, x: int)
    requires Slot(s.pt, x) && Slot(s.pt, y) && x != y
    ensures Tells(s, StatusReturn(s, y, x), y)
    ensures StatusReturn(s, y, x).hist.log[|s.hist.log|].what == Exited(s.pt[x].pid, s.pt[x].status)
  {
    var s' := StatusReturn(s, y, x);
    assert s'.pt[y].got == (if s.pt[y].arg != 0 then Some(s.pt[x].status) else s.pt[y].got);
    forall p: int | p != y ensures Quiet(s.pt, s'.pt, p) {}
  }

  /** status_return, schedule and pcb_cleanup together. */
  lemma TellsReport(s: St, y: int, x: int)
    requires Slot(s.pt, x) && Slot(s.pt, y) && x != y && |s.ready| == N_PRIOS
    requires Schedule(StatusReturn(s, y, x), y).Next?
    ensures Tells(s, Cleanup(Schedule(StatusReturn(s, y, x), y).s, x), y)
  {
    var s1 := StatusReturn(s, y, x);
    var s2 := Schedule(s1, y).s;
    TellsStatus(s, y, x);
    TellsSchedule(s1, y);
    TellsThen(s, s1, s2, y, NIL);
    TellsCleanup(s2, x);
    TellsThen(s, s2, Cleanup(s2, x), y, NIL);
  }

  lemma TellsWakeInit(s: St, z: int)
    requires Slot(s.pt, s.init) && Slot(s.pt, z) && z != s.init && |s.ready| == N_PRIOS && WakeInit(s, z).Next?
    ensures Tells(s, WakeInit(s, z).s, s.init)
  {
    var s0 := s.(zombie := RemoveFirst(s.zombie, z), mem := FreeQnode(s.mem));
    TellsReport(s0, s.init, z);
  }

  /** The parent, if it is told, was waiting. */
  lemma TellsFinish(s: St, p: int, parent: int)
    requires Slot(s.pt, p) && Slot(s.pt, parent) && p != parent && |s.ready| == N_PRIOS && Finish(s, p, parent).Next?
    ensures Tells(s, Finish(s, p, parent).s, if s.pt[parent].state == Waiting then parent else NIL)
  {
    var s0 := s.(hist := s.hist.(exits := s.hist.exits + [Exited(s.pt[p].pid, s.pt[p].status)]));
    if s.pt[parent].state == Waiting {
      TellsReport(s0, parent, p);
    } else {
      TellsOne(s, Finish(s, p, parent).s, p, s.pt[p].(state := Zombie));
    }
  }

  // ---- whole steps -------------------------------------------------------------------------------

  ghost predicate NewsAt(s: St, s': St, i: nat) { |s.hist.log| <= i < |s'.hist.log| }

  /** Every new delivery is heard by the process it goes to, which the step found waiting, unless it is
      the caller of wait(). */
  ghost predicate Heard(s: St, s': St, i: nat)
    requires NewsAt(s, s', i)
  {
    exists y: int :: Hears(s.pt, s'.pt, y, s'.hist.log[i]) && (s.pt[y].state == Waiting || y == s.current)
  }

  /** And nobody else's answer changes. */
  ghost predicate NoHearsay(s: St, s': St, y: int) {
    Live(s.pt, y) && y != s.current ==>
      Quiet(s.pt, s'.pt, y) || exists i: nat :: NewsAt(s, s', i) && Hears(s.pt, s'.pt, y, s'.hist.log[i])
  }

  /** A process keeps its PID and its level. */
  ghost predicate SameSelf(pt: seq<Pcb>, pt': seq<Pcb>, y: int) {
    Live(pt, y) && Slot(pt', y) ==> pt'[y].pid == pt[y].pid && pt'[y].priority == pt[y].priority
  }

  ghost predicate NewsRight(s: St, s': St) {
    && |s'.pt| == |s.pt| && |s.hist.log| <= |s'.hist.log| && s'.hist.log[..|s.hist.log|] == s.hist.log
    && (forall i: nat :: NewsAt(s, s', i) ==> Heard(s, s', i))
    && (forall y: int :: NoHearsay(s, s', y))
    && (forall y: int :: SameSelf(s.pt, s'.pt, y))
  }

  lemma OneTold(s: St, s': St, who: int)
    requires Tells(s, s', who) && (who == NIL || IsIn(s.pt, who, Waiting) || who == s.current)
    ensures NewsRight(s, s')
  {
    forall i: nat | NewsAt(s, s', i) ensures Heard(s, s', i) { assert i == |s.hist.log|; }
    forall y: int ensures SameSelf(s.pt, s'.pt, y) { if y != who { assert Quiet(s.pt, s'.pt, y); } }
    forall y: int ensures NoHearsay(s, s', y) {
      if y == who && who != NIL { assert NewsAt(s, s', |s.hist.log|); }
    }
  }

  /** exit() can tell two: init of a child it inherits, and then the parent. */
  lemma TwoTold(a: St, b: St, c: St, v: int, w: int)
    requires Tells(a, b, v) && Tells(b, c, w) && v != NIL && w != NIL && v != w
    requires IsIn(a.pt, v, Waiting) && IsIn(a.pt, w, Waiting)
    ensures NewsRight(a, c)
  {
    var n := |a.hist.log|;
    HearsThen(a.pt, b.pt, c.pt, v, c.hist.log[n]);
    HearsThen(a.pt, b.pt, c.pt, w, c.hist.log[n + 1]);
    forall i: nat | NewsAt(a, c, i) ensures Heard(a, c, i) { assert i == n || i == n + 1; }
    forall y: int ensures SameSelf(a.pt, c.pt, y) {
      if y != v && y != w { QuietThen(a.pt, b.pt, c.pt, y); }
    }
    forall y: int ensures NoHearsay(a, c, y) {
      if y == v { assert NewsAt(a, c, n); }
      else if y == w { assert NewsAt(a, c, n + 1); }
      else { QuietThen(a.pt, b.pt, c.pt, y); }
    }
    assert c.hist.log[..n] == b.hist.log[..n];
  }

  /** Nobody has begun to wait. */
  ghost predicate NoneWaits(pt: seq<Pcb>, pt': seq<Pcb>) {
    forall y: int :: IsIn(pt', y, Waiting) ==> IsIn(pt, y, Waiting)
  }

  lemma AdoptTells(s: St, s1: St, p: int, status: int)
    requires Slot(s.pt, p) && s1 == s.(pt := Adopt(s.pt[p := s.pt[p].(status := status)], p, s.init))
    ensures Tells(s, s1, NIL) && NoneWaits(s.pt, s1.pt)
  {
    forall y: int ensures Quiet(s.pt, s1.pt, y) && (IsIn(s1.pt, y, Waiting) ==> IsIn(s.pt, y, Waiting)) {}
  }

  lemma InitAwake(s: St, z: int)
    requires Slot(s.pt, s.init) && Slot(s.pt, z) && z != s.init && |s.ready| == N_PRIOS && WakeInit(s, z).Next?
    ensures NoneWaits(s.pt, WakeInit(s, z).s.pt) && !IsIn(WakeInit(s, z).s.pt, s.init, Waiting)
  {
  }

  /** Up to the report to the parent: who is told, and who is still waiting then. */
  lemma BequeathTells(s: St, status: Word) returns (who: int)
    requires Good(s) && s.current != s.init
    ensures WellFormed(s) && Bequeath(s, status).Next?
    ensures var s2 := Bequeath(s, status).s;
      && Tells(s, s2, who) && (who != NIL ==> IsIn(s.pt, who, Waiting) && !IsIn(s2.pt, who, Waiting))
      && NoneWaits(s.pt, s2.pt)
  {
    CurrentRuns(s);
    BequeathGood(s, status);
    var p := s.current;
    var c := s.pt[p].(status := Wrap32(status));
    InvMinor(s, p, p, c);
    var s0 := s.(pt := s.pt[p := c]);
    InvAdopt(s0, p, p);
    NoLostMinorAll(s.pt, p, c);
    AdoptAttended(s0.pt, s.init, p);
    var z := LastDeadChild(s0.pt, p, |s0.pt|);
    var s1 := s0.(pt := Adopt(s0.pt, p, s.init));
    AdoptTells(s, s1, p, c.status);
    who := NIL;
    if z != NIL && s1.pt[s.init].state == Waiting {
      WakeInitGood(s1, p, z);
      TellsWakeInit(s1, z);
      InitAwake(s1, z);
      TellsThen(s, s1, WakeInit(s1, z).s, NIL, s.init);
      who := s.init;
    }
  }

  lemma ExitNews(s: St, status: Word)
    requires Good(s) && WellFormed(s) && Exit(s, status).Next?
    ensures NewsRight(s, Exit(s, status).s)
  {
    ExitIs(s, status);
    BequeathGood(s, status);
    var v := BequeathTells(s, status);
    var p, parent, s2 := s.current, s.pt[s.current].parent, Bequeath(s, status).s;
    var s3 := Finish(s2, p, parent).s;
    var w := if s2.pt[parent].state == Waiting then parent else NIL;
    TellsFinish(s2, p, parent);
    TellsDispatch(s3);
    TellsThen(s2, s3, Dispatch(s3).s, w, NIL);
    if v == NIL || w == NIL {
      TellsThen(s, s2, Dispatch(s3).s, v, w);
      OneTold(s, Dispatch(s3).s, if v == NIL then w else v);
    } else {
      TwoTold(s, s2, Dispatch(s3).s, v, w);
    }
  }

  lemma WaitNews(s: St, ptr: Word)
    requires Good(s) && WellFormed(s) && Wait(s, ptr).Next?
    ensures NewsRight(s, Wait(s, ptr).s)
  {
    var p := s.current;
    var z := FirstDeadChild(s.pt, p, 0);
    if z != NIL {
      TellsStatus(s, p, z);
      TellsCleanup(StatusReturn(s, p, z), z);
      TellsThen(s, StatusReturn(s, p, z), Cleanup(StatusReturn(s, p, z), z), p, NIL);
      OneTold(s, Cleanup(StatusReturn(s, p, z), z), p);
      assert Tells(s, Wait(s, ptr).s, p);
      OneTold(s, Wait(s, ptr).s, p);
    } else if exists c :: 0 <= c < |s.pt| && ChildOf(s.pt, c, p) {
      var s1 := s.(pt := s.pt[p := s.pt[p].(state := Waiting)]);
      TellsOne(s, s1, p, s.pt[p].(state := Waiting));
      TellsDispatch(s1);
      TellsThen(s, s1, Dispatch(s1).s, NIL, NIL);
      OneTold(s, Dispatch(s1).s, NIL);
    } else {
      CallerOnly(s, Wait(s, ptr).s);
    }
  }

  /** The calls that change only the caller's PCB, or also an unused slot. */
  lemma CallerOnly(s: St, s': St)
    requires |s'.pt| == |s.pt| && s'.hist.log == s.hist.log
    requires forall y: int :: Live(s.pt, y) && y != s.current ==> s'.pt[y] == s.pt[y]
    requires Live(s.pt, s.current) ==>
      s'.pt[s.current].pid == s.pt[s.current].pid && s'.pt[s.current].priority == s.pt[s.current].priority
    ensures NewsRight(s, s')
  {
    forall y: int ensures NoHearsay(s, s', y) && SameSelf(s.pt, s'.pt, y) {}
  }

  lemma YieldTells(s: St)
    requires WellFormed(s) && Yield(s).Next?
    ensures Tells(s, Yield(s).s, NIL)
  {
    TellsSchedule(s, s.current);
    TellsDispatch(Schedule(s, s.current).s);
    TellsThen(s, Schedule(s, s.current).s, Yield(s).s, NIL, NIL);
  }

  lemma SleepNews(s: St, n: Word)
    requires Good(s) && WellFormed(s) && Sleep(s, n).Next?
    ensures NewsRight(s, Sleep(s, n).s)
  {
    if n == 0 {
      YieldTells(s);
    } else {
      var a := SleepIs(s, n);
      TellsOne(s, a, s.current, Sleeper(s, n));
      TellsDispatch(a);
      TellsThen(s, a, Dispatch(a).s, NIL, NIL);
    }
    OneTold(s, Sleep(s, n).s, NIL);
  }

  lemma {:induction false} TellsWakeAll(s: St)
    requires Good(s)
    ensures |s.ready| == N_PRIOS && WakeAll(s).Next? && Tells(s, WakeAll(s).s, NIL)
    decreases |s.sleeping|
  {
    WakeAllGood(s);
    if s.sleeping != [] && KeyOf(Wakeups(s.pt), s.sleeping[0]) <= s.time {
      WokenGood(s);
      var s0 := s.(sleeping := s.sleeping[1..], mem := FreeQnode(s.mem));
      TellsSchedule(s0, s.sleeping[0]);
      TellsWakeAll(Woken(s).s);
      TellsThen(s, Woken(s).s, WakeAll(s).s, NIL, NIL);
    } else {
      forall y: int ensures Quiet(s.pt, WakeAll(s).s.pt, y) {}
    }
  }

  lemma TickNews(s: St)
    requires Good(s) && Step(s, ClockTick).Next?
    ensures NewsRight(s, Step(s, ClockTick).s)
  {
    var s0, s1 := TickInto(s);
    TellsWakeAll(s0);
    ExpireIs(s1);
    OlderGood(s1);
    TellsOne(s1, Older(s1), s1.current, Older(s1).pt[s1.current]);
    TellsThen(s0, s1, Older(s1), NIL, NIL);
    if s1.pt[s1.current].quantum == 1 {
      YieldTells(Older(s1));
      TellsThen(s0, Older(s1), Yield(Older(s1)).s, NIL, NIL);
    }
    assert Tells(s, Expire(s1).s, NIL);
    OneTold(s, Expire(s1).s, NIL);
  }

  lemma ForkNews(s: St, arg: Word)
    requires Good(s) && WellFormed(s) && DoFork(s, arg).Next?
    ensures NewsRight(s, DoFork(s, arg).s)
  {
    CallerOnly(s, DoFork(s, arg).s);
  }

  /** Before the call its argument is stored: no matter for anyone's answer. */
  lemma NewsCalled(s: St, a: Word, s': St)
    requires WellFormed(s) && NewsRight(Called(s, a), s')
    ensures NewsRight(s, s')
  {
    var s1 := Called(s, a);
    forall i: nat | NewsAt(s, s', i) ensures Heard(s, s', i) {
      assert NewsAt(s1, s', i) && Heard(s1, s', i);
      var y: int :| Hears(s1.pt, s'.pt, y, s'.hist.log[i]) && (s1.pt[y].state == Waiting || y == s1.current);
      assert Hears(s.pt, s'.pt, y, s'.hist.log[i]);
    }
    forall y: int ensures SameSelf(s.pt, s'.pt, y) { assert SameSelf(s1.pt, s'.pt, y); }
    forall y: int ensures NoHearsay(s, s', y) {
      assert NoHearsay(s1, s', y);
      if Live(s.pt, y) && y != s.current && !Quiet(s.pt, s'.pt, y) {
        var i: nat :| NewsAt(s1, s', i) && Hears(s1.pt, s'.pt, y, s'.hist.log[i]);
        assert NewsAt(s, s', i) && Hears(s.pt, s'.pt, y, s'.hist.log[i]);
      }
    }
  }

  /** In every step each delivery is what the process it goes to is told, no process but the caller finds
      another answer than it had, and nobody's PID or level changes. */
  lemma StepNews(s: St, e: Event)
    requires Good(s) && Step(s, e).Next?
    ensures NewsRight(s, Step(s, e).s)
  {
    CurrentRuns(s);
    match e
    case ClockTick => TickNews(s);
    case Trap(code, arg, arg3, io) =>
      var bad := code < 0 || code >= 10;
      var a: Word := if bad then S_BAD_SYSCALL + TWO_32 else arg;
      CalledGood(s, a);
      var s1 := Called(s, a);
      if bad || code == 0 { ExitNews(s1, a); }
      else if code == 1 { WaitNews(s1, a); }
      else if code == 2 { ForkNews(s1, a); }
      else if code == 6 { SleepNews(s1, a); }
      else { CallerOnly(s1, Step(s, e).s); }
      NewsCalled(s, a, Step(s, e).s);
  }
}
