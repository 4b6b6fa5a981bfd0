/**
 The stack law over whole runs, exactly: it holds after a run if and only if no exec of the
 run was granted a stack.  The stack the first such exec is granted is lost for good.
 */
module ProcLost {
  import opened ProcSpec
  import opened ProcMem
  import opened ProcInv
  import opened ProcSteps
  import opened ProcStacks
  import opened ProcPages

  /** Where the stack about to be granted is: in no PCB and not the kernel's, and what the free list
      holds behind it does not lead back to it. */
  lemma GrantedElsewhere(pt: seq<Pcb>, m: Mem, arena: set<nat>, b: nat) returns (r: set<nat>)
    requires MemInv(pt, m, arena) && b == StackGranted(m) != 0
    ensures forall p: int :: Live(pt, p) ==> pt[p].stack != b
    ensures b != m.kstack && b !in r && Closed(TakeStack(m), r) && b in TakeStack(m).stacks
  {
    var xs :| Owners(pt, m, xs);
    SeparateOnce(m.stacks);
    if m.stkHead != 0 {
      FreeOnce(pt, m, xs);
      OwnedByList(pt, m, xs, b);
      r := ChainSet(TakeStack(m), xs[1..]);
    } else {
      assert xs == [];
      NewStack(pt, m, arena, b);
      r := ChainSet(TakeStack(m), []);
    }
  }

  /** A stack on the free list has no other owner. */
  lemma OwnedByList(pt: seq<Pcb>, m: Mem, xs: seq<nat>, b: nat)
    requires Owners(pt, m, xs) && b in xs && forall x :: multiset(m.stacks)[x] <= 1
    ensures forall p: int :: Live(pt, p) ==> pt[p].stack != b
    ensures b != m.kstack && b in m.stacks
  {
    assert multiset(m.stacks)[b] == multiset{m.kstack}[b] + Held(pt)[b] + multiset(xs)[b];
    assert multiset(xs)[b] >= 1;
    forall p: int | Live(pt, p) ensures pt[p].stack != b {
      HeldMember(pt, p);
    }
  }

  /** Nobody owns two pages that were free. */
  lemma NewStack(pt: seq<Pcb>, m: Mem, arena: set<nat>, b: nat)
    requires MemInv(pt, m, arena) && m.stkHead == 0 && b == StackGranted(m) != 0
    ensures forall p: int :: Live(pt, p) ==> pt[p].stack != b
    ensures b != m.kstack
  {
    var xs :| Owners(pt, m, xs);
    if b in m.stacks { GrantIsNew(m, arena, b); }
    assert m.kstack in multiset(m.stacks);
    forall p: int | Live(pt, p) ensures pt[p].stack != b {
      HeldMember(pt, p);
      assert pt[p].stack in multiset(m.stacks);
    }
  }

  /** The stacks of a chain, and NULL, are closed under its links. */
  lemma {:induction false} ChainSet(m: Mem, xs: seq<nat>) returns (r: set<nat>)
    requires Chain(m.stkHead, m.link, xs)
    ensures Closed(m, r) && forall x :: x in r <==> x == 0 || x in xs
    decreases |xs|
  {
    if xs == [] {
      r := {0};
    } else {
      var t := ChainSet(m.(stkHead := LinkIn(m.link, m.stkHead)), xs[1..]);
      r := t + {xs[0]};
      forall x | x in r && x != 0 ensures LinkIn(m.link, x) in r {
        if x in t { assert LinkIn(m.link, x) in t; }
      }
    }
  }

  /** The first exec of a run that is granted a stack: the caller's PCB goes on naming the old stack, so
      nobody names the new one. */
  lemma ExecLoses(s: St, arena: set<nat>)
    requires Good(s) && MemInv(s.pt, s.mem, arena) && StackGranted(s.mem) != 0
    ensures Slot(s.pt, s.current) && Booked(Exec(s).pt, Exec(s).mem, arena, StackGranted(s.mem), false)
  {
    CurrentRuns(s);
    var b, stk := StackGranted(s.mem), s.pt[s.current].stack;
    var r := GrantedElsewhere(s.pt, s.mem, arena, b);
    forall p: int | Slot(s.pt, p) ensures s.pt[p].stack != b { assert Tidy(s.pt, p); }
    PagesTakeStack(s.mem, arena);
    assert Lost(s.pt, TakeStack(s.mem), b);
    BookedGive(s.pt, TakeStack(s.mem), arena, b, false, s.current);
    BookedReturns(s.(mem := GiveStack(TakeStack(s.mem), stk)), 0, arena, b, false);
  }

  /** Not so for a later one: another exec by the same process is granted the very stack its PCB still
      names, which then heads the free list again. */
  lemma SecondExecNotLost(s: St)
    requires Good(s) && StackGranted(s.mem) != 0
    ensures WellFormed(s) && WellFormed(Exec(s))
    ensures var s1 := Exec(s); var b := s.pt[s.current].stack;
      && StackGranted(s1.mem) == b != 0
      && Exec(s1).mem.stkHead == b && Exec(s1).pt[s1.current].stack == b && !Lost(Exec(s1).pt, Exec(s1).mem, b)
  {
    CurrentRuns(s);
    assert Tidy(s.pt, s.current);
    assert Exec(Exec(s)).pt[s.current].stack == s.pt[s.current].stack;
  }

  /** A lost stack has no owner. */
  lemma LostBreaksLaw(pt: seq<Pcb>, m: Mem, b: nat)
    requires Lost(pt, m, b)
    ensures !StacksLaw(pt, m)
  {
    var r: set<nat> :| Closed(m, r) && b !in r;
    forall xs: seq<nat> | Chain(m.stkHead, m.link, xs) ensures !Owners(pt, m, xs) {
      ChainInside(m.stkHead, m.link, xs, r);
      NotHeld(pt, b);
      assert multiset(m.stacks)[b] > 0 && multiset{m.kstack}[b] == 0 && multiset(xs)[b] == 0;
    }
  }

  lemma {:induction false} ChainInside(head: nat, link: map<nat, nat>, xs: seq<nat>, r: set<nat>)
    requires Chain(head, link, xs) && head in r && Within(link, r)
    ensures forall x :: x in xs ==> x in r
    decreases |xs|
  {
    if xs != [] { ChainInside(LinkIn(link, head), link, xs[1..], r); }
  }

  lemma {:induction false} NotHeld(pt: seq<Pcb>, b: nat)
    requires forall p: int :: Slot(pt, p) ==> pt[p].stack != b
    ensures Held(pt)[b] == 0
  {
    if pt != [] {
      var t := pt[..|pt| - 1];
      forall p: int | Slot(t, p) ensures t[p].stack != b { assert t[p] == pt[p] && Slot(pt, p); }
      NotHeld(t, b);
      assert Slot(pt, |pt| - 1);
    }
  }

  /** From a state that satisfies the memory laws: they hold after a run if and only if no exec of
      the run was granted a stack. */
  lemma {:induction false} MemRunExactly(s: St, es: seq<Event>, arena: set<nat>)
    requires Good(s) && MemInv(s.pt, s.mem, arena) && Run(s, es).Next?
    ensures MemInv(Run(s, es).s.pt, Run(s, es).s.mem, arena) <==> NoExecGranted(s, es)
    decreases |es|
  {
    if es != [] {
      var s' := Step(s, es[0]).s;
      StepGood(s, es[0]);
      MemStep(s, es[0], arena);
      if ExecGranted(s, es[0]) {
        StepLoses(s, es[0], arena);
        BookedRun(s', es[1..], arena, StackGranted(s.mem), false);
        LostBreaksLaw(Run(s', es[1..]).s.pt, Run(s', es[1..]).s.mem, StackGranted(s.mem));
      } else {
        MemRunExactly(s', es[1..], arena);
      }
    }
  }

  lemma StepLoses(s: St, e: Event, arena: set<nat>)
    requires Good(s) && MemInv(s.pt, s.mem, arena) && ExecGranted(s, e) && Step(s, e).Next?
    ensures Booked(Step(s, e).s.pt, Step(s, e).s.mem, arena, StackGranted(s.mem), false)
  {
    CurrentRuns(s);
    CalledGood(s, e.arg);
    MemCalled(s, e.arg, arena);
    ExecLoses(Called(s, e.arg), arena);
  }
}
