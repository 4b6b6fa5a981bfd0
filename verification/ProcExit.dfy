/**
 sys_exit keeps the invariant: the reparenting loop, the zombie handed to a waiting
 init, the report to the parent or the zombie left for it, and the next dispatch.
 */
module ProcExit {
  import opened Wrappers
  import opened QueueSpec
  import opened ProcSpec
  import opened ProcFamily
  import opened ProcInv

  /** Every waiting process but `who` is attended. */
  ghost predicate AttendedBut(pt: seq<Pcb>, who: int) {
    forall p: int :: p != who ==> Attended(pt, p)
  }

  lemma NoDeadKidsIff(pt: seq<Pcb>, p: int)
    ensures LastDeadChild(pt, p, |pt|) == NIL ==> NoDeadKids(pt, p)
  {
    if LastDeadChild(pt, p, |pt|) == NIL {
      forall c: int ensures !DeadChild(pt, c, p) { assert NIL < c < |pt| || !Slot(pt, c); }
    }
  }

  /** After reparenting only init can have been left waiting beside a dead child. */
  lemma AdoptAttended(pt: seq<Pcb>, init: int, x: int)
    requires NoLostWakeup(pt) && IsIn(pt, x, Running) && x != init
    ensures AttendedBut(Adopt(pt, x, init), init)
    ensures LastDeadChild(pt, x, |pt|) == NIL || !IsIn(pt, init, Waiting) ==> NoLostWakeup(Adopt(pt, x, init))
  {
    var pt' := Adopt(pt, x, init);
    forall p: int | p != init ensures Attended(pt', p) {
      assert Attended(pt, p);
      AttendedAdopt(pt, init, x, p);
    }
    assert Attended(pt, init);
    if LastDeadChild(pt, x, |pt|) == NIL {
      NoDeadKidsIff(pt, x);
      AttendedAdopt(pt, init, x, init);
    }
  }

  lemma ToldAttended(pt: seq<Pcb>, y: int, x: int)
    requires AttendedBut(pt, y) && Slot(pt, y) && Live(pt, x) && x != y
    requires forall p: int :: p != y && IsIn(pt, p, Waiting) ==> pt[x].parent != p
    ensures AttendedBut(pt[y := Told(pt[y], pt[x])][x := Freed(pt[x])], y)
  {
    var pt1 := pt[y := Told(pt[y], pt[x])];
    var pt2 := pt1[x := Freed(pt[x])];
    forall p: int | p != y ensures Attended(pt2, p) {
      NoLostMinor(pt, y, Told(pt[y], pt[x]), p);
      if p != x { AttendedState(pt1, x, Freed(pt[x]), p); }
    }
  }

  lemma NoKidsAfter(pt: seq<Pcb>, x: int, c: Pcb, p: int)
    requires NoKids(pt, p) && Slot(pt, x) && c.parent == pt[x].parent
    requires pt[x].state == Unused ==> c.state == Unused
    ensures NoKids(pt[x := c], p)
  {
    var pt' := pt[x := c];
    forall k: int ensures !ChildOf(pt', k, p) { assert !ChildOf(pt, k, p); }
  }

  /** Handing zombie z to the waiting init. */
  lemma WakeInitGood(s: St, p: int, z: int)
    requires Inv(s, p) && IsIn(s.pt, p, Running) && IsIn(s.pt, s.init, Waiting)
    requires IsIn(s.pt, z, Zombie) && s.pt[z].parent == s.init
    requires AttendedBut(s.pt, s.init) && NoKids(s.pt, p)
    ensures WakeInit(s, z) != Halted(LostZombie)
    ensures WakeInit(s, z).Next?
    ensures var s' := WakeInit(s, z).s;
      && Inv(s', p) && NoLostWakeup(s'.pt) && NoKids(s'.pt, p)
      && s'.pt[p] == s.pt[p] && s'.pt[s.init].state == Ready
      && (forall q: int :: Slot(s.pt, q) && q != z && q != s.init ==> s'.pt[q] == s.pt[q])
  {
    InvReapQueued(s, p, s.init, z);
    assert Tidy(s.pt, z);
    assert Tidy(s.pt, s.init);
    var s0 := s.(zombie := RemoveFirst(s.zombie, z), mem := FreeQnode(s.mem));
    var sr := StatusReturn(s0, s.init, z);
    CleanupCommutes(sr, z, s.init);
    CleanupIs(s0, s.init, z);
    var sc := Cleanup(sr, z);
    ToldAttended(s.pt, s.init, z);
    NoKidsReaped(s.pt, s.init, z, p);
    WokenUp(sc, p, s.init);
  }

  /** Scheduling the waiting process y, while p runs, sets right what y was owed. */
  lemma WokenUp(s: St, p: int, y: int)
    requires Inv(s, p) && Slot(s.pt, p) && IsIn(s.pt, y, Waiting) && p != y && AttendedBut(s.pt, y) && NoKids(s.pt, p)
    ensures |s.ready| == N_PRIOS
    ensures Schedule(s, y).Next? ==> var s' := Schedule(s, y).s;
      && Inv(s', p) && NoLostWakeup(s'.pt) && NoKids(s'.pt, p) && s'.pt == s.pt[y := s.pt[y].(state := Ready)]
  {
    if Schedule(s, y).Next? {
      NoLostSchedule(s, y);
      InvSchedule(s, p, y);
      NoKidsAfter(s.pt, y, s.pt[y].(state := Ready), p);
    }
  }

  lemma NoKidsReaped(pt: seq<Pcb>, y: int, x: int, p: int)
    requires NoKids(pt, p) && Slot(pt, y) && Slot(pt, x) && x != y && pt[y].state != Unused
    ensures NoKids(pt[y := Told(pt[y], pt[x])][x := Freed(pt[x])], p)
  {
    NoKidsAfter(pt, y, Told(pt[y], pt[x]), p);
    NoKidsAfter(pt[y := Told(pt[y], pt[x])], x, Freed(pt[x]), p);
  }

  /** Telling the parent, or leaving a zombie. */
  lemma FinishGood(s: St, p: int, parent: int)
    requires Inv(s, p) && IsIn(s.pt, p, Running) && p != s.init && NoLostWakeup(s.pt) && NoKids(s.pt, p)
    requires Slot(s.pt, parent) && parent == s.pt[p].parent && parent != p
    ensures Finish(s, p, parent).Next? ==>
              var s' := Finish(s, p, parent).s; Inv(s', NIL) && NoLostWakeup(s'.pt)
  {
    if Finish(s, p, parent).Next? {
      var s0 := s.(hist := s.hist.(exits := s.hist.exits + [Exited(s.pt[p].pid, s.pt[p].status)]));
      assert Tidy(s.pt, p);
      if s.pt[parent].state == Waiting {
        InvReapDirect(s, parent, p);
        var sr := StatusReturn(s0, parent, p);
        CleanupCommutes(sr, p, parent);
        CleanupIs(s0, parent, p);
        var sc := Cleanup(sr, p);
        ToldAttended(s.pt, parent, p);
        NoLostSchedule(sc, parent);
        InvSchedule(sc, NIL, parent);
      } else {
        InvZombify(s, p);
        NoLostState(s.pt, p, s.pt[p].(state := Zombie));
      }
    }
  }

  /** sys_exit up to, not including, the report to the parent. */
  function Bequeath(s: St, status: Word): (r: Outcome)
    requires WellFormed(s)
    ensures r.Next? ==> SameShape(s, r.s) && r.s.current == s.current
  {
    var p := s.current;
    var pt1 := s.pt[p := s.pt[p].(status := Wrap32(status))];
    var z := LastDeadChild(pt1, p, |pt1|);
    var s1 := s.(pt := Adopt(pt1, p, s.init));
    if z != NIL && s1.pt[s.init].state == Waiting then WakeInit(s1, z) else Next(s1)
  }

  lemma BequeathGood(s: St, status: Word)
    requires Good(s) && s.current != s.init
    ensures Bequeath(s, status).Next?
    ensures var s' := Bequeath(s, status).s; var p := s.current;
      && Inv(s', p) && NoLostWakeup(s'.pt) && NoKids(s'.pt, p) && IsIn(s'.pt, p, Running)
      && s'.pt[p] == s.pt[p].(status := Wrap32(status))
      && s'.init == s.init && s'.current == p && |s'.pt| == |s.pt|
  {
    CurrentRuns(s);
    var p := s.current;
    var c := s.pt[p].(status := Wrap32(status));
    InvMinor(s, p, p, c);
    NoLostMinorAll(s.pt, p, c);
    var s0 := s.(pt := s.pt[p := c]);
    InvAdopt(s0, p, p);
    AdoptAttended(s0.pt, s.init, p);
    var z := LastDeadChild(s0.pt, p, |s0.pt|);
    var s1 := s0.(pt := Adopt(s0.pt, p, s.init));
    if z != NIL && s1.pt[s.init].state == Waiting {
      WakeInitGood(s1, p, z);
    }
  }

  lemma ExitIs(s: St, status: Word)
    requires Good(s)
    ensures WellFormed(s)
    ensures s.current == s.init ==> Exit(s, status) == Halted(InitExits)
    ensures s.current != s.init ==>
      && Bequeath(s, status).Next?
      && var s2 := Bequeath(s, status).s; var parent := s.pt[s.current].parent;
         Slot(s2.pt, parent) && parent != s.current && parent == s2.pt[s.current].parent
         && Exit(s, status) == (var s3 :- Finish(s2, s.current, parent); Dispatch(s3))
  {
    CurrentRuns(s);
    var rank :| Tree(s.pt, s.init, rank);
    if s.current != s.init {
      assert Kin(s.pt, s.init, rank, s.current);
      BequeathGood(s, status);
    }
  }

  lemma ExitGood(s: St, status: Word)
    requires Good(s)
    ensures WellFormed(s)
    ensures Exit(s, status).Next? ==> Good(Exit(s, status).s)
  {
    ExitIs(s, status);
    if s.current != s.init {
      BequeathGood(s, status);
      var s2 := Bequeath(s, status).s;
      var parent := s.pt[s.current].parent;
      FinishGood(s2, s.current, parent);
      if Finish(s2, s.current, parent).Next? && Exit(s, status).Next? {
        InvDispatch(Finish(s2, s.current, parent).s);
      }
    }
  }
}
