/**
 What each call answers, in terms of the states before and after the step alone: return values,
 what wait() hands over, what fork() makes, what exit() records.
 */
module ProcAnswers {
  import opened Wrappers
  import opened QueueSpec
  import opened ProcSpec
  import opened ProcSched
  import opened ProcInv
  import opened ProcExit
  import opened ProcSteps

  /** The step has given the caller this return value and left its argument in its context; nothing else
      has changed. */
  ghost predicate Replies(s: St, s': St, arg: nat, v: int) {
    && Slot(s.pt, s.current) && |s'.pt| == |s.pt| && s' == s.(pt := s'.pt)
    && (forall p: int :: Slot(s.pt, p) && p != s.current ==> s'.pt[p] == s.pt[p])
    && s'.pt[s.current] == s.pt[s.current].(arg := arg, ret := v)
  }

  lemma ReturnsReplies(s: St, a: Word, v: int)
    requires Slot(s.pt, s.current)
    ensures Replies(s, Returns(Called(s, a), v), a, v)
  {
  }

  /** read, write, getpid and gettime. */
  lemma ValueReplies(s: St, code: int, arg: Word, arg3: Word, io: int)
    requires Good(s) && Step(s, Trap(code, arg, arg3, io)).Next?
    ensures var s' := Step(s, Trap(code, arg, arg3, io)).s;
      && (code == 4 ==>
            Replies(s, s', arg, if arg3 == 0 || (arg == 0 && io < 1) then 0 else if arg < 2 then io else -5))
      && (code == 5 ==> Replies(s, s', arg, if arg < 2 then Wrap32(arg3) else -5))
      && (code == 7 ==> Slot(s.pt, s.current) && Replies(s, s', arg, s.pt[s.current].pid))
      && (code == 8 ==> Replies(s, s', arg, Wrap32(s.time)))
  {
    CurrentRuns(s);
    var s' := Step(s, Trap(code, arg, arg3, io)).s;
    if code in {4, 5, 7, 8} { ReturnsReplies(s, arg, s'.pt[s.current].ret); }
  }

  lemma {:induction false} FindPidFirst(pt: seq<Pcb>, pid: int, i: nat)
    requires i <= |pt|
    ensures var q := FindPid(pt, pid, i);
      && (q < |pt| ==> pt[q].pid == pid && pt[q].state != Unused)
      && forall j :: i <= j < q ==> pt[j].pid != pid || pt[j].state == Unused
    decreases |pt| - i
  {
    if i < |pt| { FindPidFirst(pt, pid, i + 1); }
  }

  /** getprio: the caller's own priority for 0 and for its own PID, otherwise that of the first live
      process with this PID; if there is none, whatever lies behind the null pointer. */
  lemma GetprioReplies(s: St, arg: Word, arg3: Word, io: int)
    requires Good(s) && Step(s, Trap(9, arg, arg3, io)).Next?
    ensures Slot(s.pt, s.current)
    ensures var s' := Step(s, Trap(9, arg, arg3, io)).s; var pid := Wrap32(arg);
      if pid == 0 || pid == s.pt[s.current].pid then Replies(s, s', arg, s.pt[s.current].priority)
      else if exists q :: 0 <= q < |s.pt| && s.pt[q].pid == pid && s.pt[q].state != Unused then
        exists q :: 0 <= q < |s.pt| && s.pt[q].pid == pid && s.pt[q].state != Unused
          && (forall j :: 0 <= j < q ==> s.pt[j].pid != pid || s.pt[j].state == Unused)
          && Replies(s, s', arg, s.pt[q].priority)
      else Replies(s, s', arg, io)
  {
    CurrentRuns(s);
    var s' := Step(s, Trap(9, arg, arg3, io)).s;
    var s1 := Called(s, arg);
    ReturnsReplies(s, arg, s'.pt[s.current].ret);
    FindPidFirst(s1.pt, Wrap32(arg), 0);
    var q := FindPid(s1.pt, Wrap32(arg), 0);
    assert forall j :: 0 <= j < |s.pt| ==> s1.pt[j].pid == s.pt[j].pid && s1.pt[j].state == s.pt[j].state;
  }

  // ---- wait ------------------------------------------------------------------------------------

  /** wait() without children: -4, at once. */
  lemma WaitAlone(s: St, arg: Word, arg3: Word, io: int)
    requires Good(s) && Step(s, Trap(1, arg, arg3, io)).Next?
    requires forall c :: 0 <= c < |s.pt| && c != s.current && s.pt[c].parent == s.current ==> s.pt[c].state == Unused
    ensures Replies(s, Step(s, Trap(1, arg, arg3, io)).s, arg, -4)
  {
    CurrentRuns(s);
    var s1 := Called(s, arg);
    assert forall c :: 0 <= c < |s.pt| ==> !ChildOf(s1.pt, c, s.current);
    ReturnsReplies(s, arg, -4);
  }

  /** Slot z holds a child of the caller that has exited. */
  ghost predicate DeadKid(s: St, z: int) {
    0 <= z < |s.pt| && z != s.current && s.pt[z].parent == s.current && s.pt[z].state == Zombie
  }

  /** wait() with a child that has exited: the first one in the table is reported and its slot freed,
      and the caller goes on. */
  lemma WaitTold(s: St, arg: Word, arg3: Word, io: int, z: int)
    requires Good(s) && Step(s, Trap(1, arg, arg3, io)).Next?
    requires DeadKid(s, z) && forall j :: 0 <= j < z ==> !DeadKid(s, j)
    ensures var s' := Step(s, Trap(1, arg, arg3, io)).s; var p := s.current;
      && |s'.pt| == |s.pt| && Slot(s.pt, p) && s'.current == p
      && s'.pt[p] == s.pt[p].(arg := arg, ret := s.pt[z].pid,
                              got := if arg != 0 then Some(s.pt[z].status) else s.pt[p].got)
      && s'.pt[z].state == Unused
      && (forall q: int :: Slot(s.pt, q) && q != p && q != z ==> s'.pt[q] == s.pt[q])
      && s'.mem.stkHead == s.pt[z].stack && s'.ready == s.ready && s'.sleeping == s.sleeping
      && s'.hist.log == s.hist.log + [Delivery(Exited(s.pt[z].pid, s.pt[z].status), s.pt[p].pid)]
  {
    CurrentRuns(s);
    CalledGood(s, arg);
    var s1 := Called(s, arg);
    forall j | 0 <= j < z ensures !(ChildOf(s1.pt, j, s.current) && s1.pt[j].state == Zombie) { assert !DeadKid(s, j); }
    assert ChildOf(s1.pt, z, s.current);
    assert FirstDeadChild(s1.pt, s.current, 0) == z;
    assert Tidy(s1.pt, z);
    CleanupIs(s1, s.current, z);
  }

  /** wait() with children of which none has exited: the caller waits, without an answer. */
  lemma WaitBlocks(s: St, arg: Word, arg3: Word, io: int, c: int)
    requires Good(s) && Step(s, Trap(1, arg, arg3, io)).Next? && forall z :: !DeadKid(s, z)
    requires 0 <= c < |s.pt| && c != s.current && s.pt[c].parent == s.current && s.pt[c].state != Unused
    ensures var s' := Step(s, Trap(1, arg, arg3, io)).s; var p := s.current;
      && |s'.pt| == |s.pt| && Slot(s.pt, p) && s'.current != p
      && s'.pt[p] == s.pt[p].(arg := arg, state := Waiting) && s'.hist.log == s.hist.log
  {
    CurrentRuns(s);
    CalledGood(s, arg);
    var s1, p := Called(s, arg), s.current;
    var z := FirstDeadChild(s1.pt, p, 0);
    if z != NIL { assert DeadKid(s, z); }
    assert ChildOf(s1.pt, c, p);
    InvBlock(s1, p);
    DispatchOther(s1.(pt := s1.pt[p := s1.pt[p].(state := Waiting)]), p);
  }

  /** dispatch() does not touch a process that is not ready. */
  lemma DispatchOther(s: St, p: int)
    requires Inv(s, NIL) && Slot(s.pt, p) && s.pt[p].state != Ready && Dispatch(s).Next?
    ensures var s' := Dispatch(s).s;
      |s'.pt| == |s.pt| && s'.current != p && s'.pt[p] == s.pt[p] && s'.hist.log == s.hist.log
  {
    var i := TopLevel(s.ready);
    var x := s.ready[i][0];
    HeadOcc(s.ready[i], x);
    assert InPlace(s.pt, s.ready, s.sleeping, x);
  }

  // ---- fork and exec ---------------------------------------------------------------------------

  /** What is new about slot n and the caller after a fork with this argument. */
  ghost predicate Born(s: St, s': St, arg: nat, n: int) {
    && Slot(s.pt, n) && Slot(s.pt, s.current) && |s'.pt| == |s.pt| && |s.ready| == 3 == |s'.ready|
    && s.pt[n].state == Unused && s'.pt[n].state == Ready
    && s'.pt[n].pid == s.nextPid && s'.pt[n].parent == s.current && s'.pt[n].ret == 0
    && s'.pt[n].priority == (if arg % 0x100 == 0x80 then s.pt[s.current].priority else arg % 0x100)
    && s'.pt[n].priority < 3
    && s'.ready == s.ready[s'.pt[n].priority := s.ready[s'.pt[n].priority] + [n]]
    && s'.nextPid == Wrap32(s.nextPid + 1) && s'.current == s.current
    && s'.pt[s.current] == s.pt[s.current].(arg := arg, ret := s'.pt[s.current].ret)
    && s'.pt[s.current].ret == (if s'.pt[n].stack == s.pt[s.current].stack then 0 else s.nextPid)
    && (forall p: int :: Slot(s.pt, p) && p != n && p != s.current ==> s'.pt[p] == s.pt[p])
    && s'.sleeping == s.sleeping && s'.zombie == s.zombie && s'.time == s.time && s'.init == s.init
    && s'.hist.log == s.hist.log && s'.hist.exits == s.hist.exits
  }

  /** fork() answers -1 and changes nothing, or exactly one slot comes alive: its process is ready at
      the end of the queue of its level and gets 0, and the parent gets its PID, unless the two share
      pcb->stack and so the context the values are stored in. */
  lemma ForkReplies(s: St, arg: Word, arg3: Word, io: int)
    requires Good(s) && Step(s, Trap(2, arg, arg3, io)).Next?
    ensures var s' := Step(s, Trap(2, arg, arg3, io)).s;
      Replies(s, s', arg, -1) || exists n: int :: Born(s, s', arg, n)
  {
    CurrentRuns(s);
    CalledGood(s, arg);
    var s1 := Called(s, arg);
    var n := FirstUnused(s1.pt, 0);
    if n == |s1.pt| || StackGranted(s1.mem) == 0 {
      ReturnsReplies(s, arg, -1);
    } else {
      ForkBears(s, arg, s1, n, DoFork(s1, arg).s);
    }
  }

  lemma ForkBears(s: St, arg: Word, s1: St, n: int, s': St)
    requires IsIn(s.pt, s.current, Running) && |s.ready| == N_PRIOS && s1 == Called(s, arg)
    requires Slot(s.pt, n) && s.pt[n].state == Unused && n == FirstUnused(s1.pt, 0) && StackGranted(s.mem) != 0
    requires DoFork(s1, arg) == Next(s')
    ensures Born(s, s', arg, n)
  {
  }

  /** The slot that comes alive is the only one. */
  lemma OneBorn(s: St, s': St, arg: nat, n: int, p: int)
    requires Born(s, s', arg, n) && Slot(s.pt, p) && s.pt[p].state == Unused && s'.pt[p].state != Unused
    ensures p == n
  {
  }

  /** exec() answers -1 and changes nothing, or the caller goes on with 0 and the stack its PCB names
      heads the free list. */
  lemma ExecReplies(s: St, arg: Word, arg3: Word, io: int)
    requires Good(s) && Step(s, Trap(3, arg, arg3, io)).Next?
    ensures var s' := Step(s, Trap(3, arg, arg3, io)).s;
      || Replies(s, s', arg, -1)
      || (Slot(s.pt, s.current) && s'.mem.stkHead == s.pt[s.current].stack && Replies(s.(mem := s'.mem), s', arg, 0))
  {
    CurrentRuns(s);
    var s1 := Called(s, arg);
    if StackGranted(s1.mem) == 0 {
      ReturnsReplies(s, arg, -1);
    } else {
      ReturnsReplies(s.(mem := Exec(s1).mem), arg, 0);
    }
  }

  // ---- exit ------------------------------------------------------------------------------------

  /** exit() records the caller's PID and the status it gave, and an invalid call -3; and the caller's
      slot is free or holds a zombie with that status. */
  lemma ExitRecords(s: St, code: int, arg: Word, arg3: Word, io: int)
    requires Good(s) && (code <= 0 || code >= 10) && Step(s, Trap(code, arg, arg3, io)).Next?
    ensures var s' := Step(s, Trap(code, arg, arg3, io)).s; var p := s.current;
      var status := if code == 0 then Wrap32(arg) else -3;
      && |s'.pt| == |s.pt| && Slot(s.pt, p) && s'.current != p
      && s'.hist.exits == s.hist.exits + [Exited(s.pt[p].pid, status)]
      && (s'.pt[p].state == Unused
          || (s'.pt[p].state == Zombie && s'.pt[p].pid == s.pt[p].pid && s'.pt[p].status == status))
  {
    CurrentRuns(s);
    var a: Word := if code == 0 then arg else S_BAD_SYSCALL + TWO_32;
    CalledGood(s, a);
    ServesExit(s, code, arg, arg3, io, a);
    BadStatus();
    ExitEnds(Called(s, a), a);
  }

  lemma ServesExit(s: St, code: int, arg: Word, arg3: Word, io: int, a: Word)
    requires WellFormed(s) && (code <= 0 || code >= 10) && a == if code == 0 then arg else S_BAD_SYSCALL + TWO_32
    ensures WellFormed(Called(s, a)) && Step(s, Trap(code, arg, arg3, io)) == Exit(Called(s, a), a)
  {
  }

  lemma BadStatus()
    ensures Wrap32(S_BAD_SYSCALL + TWO_32) == -3
  {
  }

  lemma ExitEnds(s: St, a: Word)
    requires Good(s) && WellFormed(s) && Exit(s, a).Next?
    ensures var s' := Exit(s, a).s; var p := s.current;
      && |s'.pt| == |s.pt| && s'.current != p
      && s'.hist.exits == s.hist.exits + [Exited(s.pt[p].pid, Wrap32(a))]
      && (s'.pt[p].state == Unused
          || (s'.pt[p].state == Zombie && s'.pt[p].pid == s.pt[p].pid && s'.pt[p].status == Wrap32(a)))
  {
    ExitIs(s, a);
    BequeathGood(s, a);
    BequeathExits(s, a);
    var p, parent, s2 := s.current, s.pt[s.current].parent, Bequeath(s, a).s;
    FinishGood(s2, p, parent);
    FinishEnds(s2, p, parent);
    DispatchOther(Finish(s2, p, parent).s, p);
  }

  lemma BequeathExits(s: St, a: Word)
    requires WellFormed(s) && Bequeath(s, a).Next?
    ensures Bequeath(s, a).s.hist.exits == s.hist.exits
  {
  }

  lemma FinishEnds(s: St, p: int, parent: int)
    requires Inv(s, p) && IsIn(s.pt, p, Running) && Slot(s.pt, parent) && parent != p && Finish(s, p, parent).Next?
    ensures var s' := Finish(s, p, parent).s;
      && |s'.pt| == |s.pt| && s'.hist.exits == s.hist.exits + [Exited(s.pt[p].pid, s.pt[p].status)]
      && (s'.pt[p].state == Unused || s'.pt[p] == s.pt[p].(state := Zombie))
  {
  }
}
