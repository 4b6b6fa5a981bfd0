/**
 The code of kernel/procs.c, kernel/syscalls.c, kernel/clock.c and kernel/stacks.c over the real
 queues and page allocator.  `Abs` reads the whole state as a value of ProcSpec; every method is
 proved to do to that value exactly what ProcSpec says.  A method that hits a failed assertion or
 a panic returns the reason, and the state no longer matters.

 PCBs are table indices, as in ProcSpec.  The queues are numbered in the order pcb_init makes
 them: ready 0 to 2, sleeping 3, zombie 4, blocked 5, sioread 6.
 */
module Kernel {
  import opened Wrappers
  import opened QueueSpec
  import opened PageList
  import opened Regions
  import opened ProcSpec
  import opened ProcInv
  import opened ProcSteps
  import opened ProcExit
  import ProcBoot
  import ProcFamily
  import Q = Queues
  import KMem

  const SLEEPING: nat := 3
  const ZOMBIES: nat := 4
  const USED_QUEUES: nat := 7

  function OrderOf(q: nat): Order { if q == SLEEPING then ByWakeup else Fifo }

  function QueueOf(s: St, q: nat): seq<int>
    requires |s.ready| == N_PRIOS && q <= ZOMBIES
  {
    if q < N_PRIOS then s.ready[q] else if q == SLEEPING then s.sleeping else s.zombie
  }

  function WithQueue(s: St, q: nat, xs: seq<int>): (r: St)
    requires |s.ready| == N_PRIOS && q <= ZOMBIES
    ensures |r.ready| == N_PRIOS && r.pt == s.pt
  {
    if q < N_PRIOS then s.(ready := s.ready[q := xs])
    else if q == SLEEPING then s.(sleeping := xs)
    else s.(zombie := xs)
  }

  /** The queues and memory determine the rest of a change that leaves everything else alone. */
  lemma OneQueueChanged(s: St, t: St, q: nat, xs: seq<int>)
    requires |s.ready| == N_PRIOS && |t.ready| == N_PRIOS && q <= ZOMBIES
    requires t == s.(ready := t.ready, sleeping := t.sleeping, zombie := t.zombie, mem := t.mem)
    requires forall i: nat :: i <= ZOMBIES ==> QueueOf(t, i) == if i == q then xs else QueueOf(s, i)
    ensures t == WithQueue(s, q, xs).(mem := t.mem)
  {
    assert QueueOf(t, 0) == t.ready[0] && QueueOf(t, 1) == t.ready[1] && QueueOf(t, 2) == t.ready[2];
    assert QueueOf(t, SLEEPING) == t.sleeping && QueueOf(t, ZOMBIES) == t.zombie;
    var r := WithQueue(s, q, xs);
    assert t.ready == r.ready;
  }

  /** The method went on into state s, or stopped for a reason, as the specification says. */
  ghost predicate Agrees(o: Outcome, why: Option<Reason>, s: St) {
    match why
    case None => o == Next(s)
    case Some(r) => o == Halted(r)
  }

  /** Queues 0 to 6 are allocated, the sleep queue ordered by comp_wakeup and the others unordered. */
  ghost predicate QueuesReady(inUse: seq<bool>, queues: seq<Q.Queue>) {
    && |inUse| == |queues| == Q.N_QUEUES
    && forall q: nat :: q < USED_QUEUES ==> inUse[q] && queues[q].order == OrderOf(q)
  }

  lemma QueuesStayReady(inUse: seq<bool>, queues: seq<Q.Queue>, queues': seq<Q.Queue>)
    requires QueuesReady(inUse, queues) && |queues'| == Q.N_QUEUES
    requires forall t: nat :: t < Q.N_QUEUES ==> queues'[t].order == queues[t].order
    ensures QueuesReady(inUse, queues')
  {
  }

  lemma PoolShape(pool: Q.QueuePool)
    requires pool.Valid(0, 0)
    ensures |pool.queues| == Q.N_QUEUES && |pool.chains| == Q.N_QUEUES && |pool.inUse| == Q.N_QUEUES
  {
  }

  /** Memory once km_page_alloc has granted a new stack. */
  function Bought(m: Mem, stk: nat): Mem { m.(free := AllocList(m.free, STACK_PAGES), stacks := m.stacks + [stk]) }

  lemma TakeStackParts(m: Mem)
    ensures m.stkHead != 0 ==> StackGranted(m) == m.stkHead
    ensures m.stkHead != 0 ==>
              TakeStack(m) == m.(stkHead := if m.stkHead in m.link then m.link[m.stkHead] else 0,
                                 link := m.link[m.stkHead := 0])
    ensures m.stkHead == 0 ==> var b := GrantBase(m.free, STACK_PAGES);
      && StackGranted(m) == b
      && TakeStack(m) == if b == 0 then m else
           Bought(m, b).(stkHead := 0, link := m.link[b := 0])
  {
  }

  lemma LevelKnown(ready: seq<seq<int>>, level: nat)
    requires |ready| == N_PRIOS && level < N_PRIOS && level <= TopLevel(ready)
    ensures if ready[level] != [] then TopLevel(ready) == level else level + 1 <= TopLevel(ready)
  {
  }

  /** The last part of dispatch: p gets the processor and a fresh quantum. */
  function OnProcessor(s: St, p: int): St {
    var s1 := if 0 <= p < |s.pt| then s.(pt := s.pt[p := s.pt[p].(state := Running, quantum := Q_STD)]) else s;
    var s2 := s1.(current := p);
    s2.(hist := s2.hist.(dispatches := s2.hist.dispatches + 1))
  }

  lemma DispatchParts(s: St)
    requires |s.ready| == N_PRIOS
    ensures var i := TopLevel(s.ready);
      Dispatch(s) == if i == N_PRIOS then Halted(NobodyReady) else
        Next(OnProcessor(WithQueue(s, i, s.ready[i][1..]).(mem := FreeQnode(s.mem)), s.ready[i][0]))
  {
  }

  /** pcb_cleanup field by field. */
  lemma CleanupParts(s: St, p: int)
    requires Slot(s.pt, p)
    ensures var c := s.pt[p];
      Cleanup(s, p) ==
        if c.stack != 0
        then s.(mem := GiveStack(s.mem, c.stack),
                pt := s.pt[p := c.(stack := 0)][p := c.(stack := 0).(state := Unused)])
        else s.(pt := s.pt[p := c.(state := Unused)])
  {
    var c := s.pt[p];
    assert s.pt[p := c.(stack := 0)][p := c.(stack := 0).(state := Unused)]
           == s.pt[p := c.(stack := 0, state := Unused)];
  }

  // ---- sys_exit's reparenting loop ---------------------------------------------------------

  /** The table once the children of p below slot k belong to init. */
  function AdoptUpTo(pt: seq<Pcb>, p: int, init: int, k: nat): (r: seq<Pcb>)
    requires k <= |pt|
    ensures |r| == |pt|
    ensures forall i :: 0 <= i < |pt| ==> r[i] == if i < k && ChildOf(pt, i, p) then pt[i].(parent := init) else pt[i]
  {
    seq(|pt|, i requires 0 <= i < |pt| => if i < k && ChildOf(pt, i, p) then pt[i].(parent := init) else pt[i])
  }

  ghost predicate AllAdopted(pt: seq<Pcb>, p: int) {
    forall i :: 0 <= i < |pt| ==> !ChildOf(pt, i, p)
  }

  /** The children still to be found are those from slot k on. */
  lemma ChildrenLeft(pt: seq<Pcb>, p: int, init: int, k: nat, i: nat)
    requires k <= |pt| && p != init && i < |pt|
    ensures ChildOf(AdoptUpTo(pt, p, init, k), i, p) <==> k <= i && ChildOf(pt, i, p)
  {
  }

  /** Nobody to adopt in between. */
  lemma {:induction false} NoneBetween(pt: seq<Pcb>, p: int, init: int, k: nat, c: nat)
    requires k <= c <= |pt| && forall i :: k <= i < c ==> !ChildOf(pt, i, p)
    ensures AdoptUpTo(pt, p, init, k) == AdoptUpTo(pt, p, init, c)
    ensures LastDeadChild(pt, p, k) == LastDeadChild(pt, p, c)
    decreases c - k
  {
    if k < c { NoneBetween(pt, p, init, k, c - 1); }
  }

  /** c is the next child found: it is adopted, and remembered if it is dead. */
  lemma AdoptNext(pt: seq<Pcb>, p: int, init: int, k: nat, c: nat)
    requires k <= c < |pt| && p != init && ChildOf(AdoptUpTo(pt, p, init, k), c, p)
    requires forall i :: 0 <= i < c ==> !ChildOf(AdoptUpTo(pt, p, init, k), i, p)
    ensures AdoptUpTo(pt, p, init, c + 1) == AdoptUpTo(pt, p, init, k)[c := pt[c].(parent := init)]
    ensures AdoptUpTo(pt, p, init, k)[c] == pt[c]
    ensures LastDeadChild(pt, p, c + 1) == if pt[c].state == Zombie then c else LastDeadChild(pt, p, k)
  {
    forall i: nat | k <= i <= c ensures ChildOf(pt, i, p) <==> i == c {
      ChildrenLeft(pt, p, init, k, i);
      if i < c { assert !ChildOf(AdoptUpTo(pt, p, init, k), i, p); }
    }
    NoneBetween(pt, p, init, k, c);
  }

  lemma AdoptedTo(pt: seq<Pcb>, p: int, init: int, k: nat, c: int) returns (k': nat)
    requires k <= |pt| && p != init && ChildOf(AdoptUpTo(pt, p, init, k), c, p)
    requires forall i :: 0 <= i < c ==> !ChildOf(AdoptUpTo(pt, p, init, k), i, p)
    ensures k < k' <= |pt| && k' == c + 1
    ensures AdoptUpTo(pt, p, init, k') == AdoptUpTo(pt, p, init, k)[c := pt[c].(parent := init)]
    ensures AdoptUpTo(pt, p, init, k)[c] == pt[c]
    ensures LastDeadChild(pt, p, k') == if pt[c].state == Zombie then c else LastDeadChild(pt, p, k)
  {
    ChildrenLeft(pt, p, init, k, c);
    AdoptNext(pt, p, init, k, c);
    k' := c + 1;
  }

  lemma AdoptDone(pt: seq<Pcb>, p: int, init: int, k: nat)
    requires k <= |pt| && p != init && AllAdopted(AdoptUpTo(pt, p, init, k), p)
    ensures AdoptUpTo(pt, p, init, k) == Adopt(pt, p, init)
    ensures LastDeadChild(pt, p, k) == LastDeadChild(pt, p, |pt|)
  {
    forall i: nat | k <= i < |pt| ensures !ChildOf(pt, i, p) {
      ChildrenLeft(pt, p, init, k, i);
      assert !ChildOf(AdoptUpTo(pt, p, init, k), i, p);
    }
    NoneBetween(pt, p, init, k, |pt|);
  }

  /** A waiting parent is told about its child, which is then gone. */
  function Reported(s: St, child: int, parent: int): Outcome
    requires Slot(s.pt, child) && Slot(s.pt, parent) && |s.ready| == N_PRIOS
  {
    var r := Schedule(StatusReturn(s, parent, child), parent);
    if r.Halted? then r else Next(Cleanup(r.s, child))
  }

  function ThenDispatch(o: Outcome): Outcome
    requires o.Next? ==> |o.s.ready| == N_PRIOS
  {
    if o.Next? then Dispatch(o.s) else o
  }

  lemma ExitParts(s: St, status: Word)
    requires Slot(s.pt, s.current) && Slot(s.pt, s.init) && |s.ready| == N_PRIOS
    ensures var p := s.current; var parent := s.pt[p].parent;
      Exit(s, status) ==
        if !Live(s.pt, parent) then Halted(NoParent) else if parent == p then Halted(InitExits)
        else var b := Bequeath(s, status); if b.Halted? then b else ThenDispatch(Finish(b.s, p, parent))
  {
  }

  /** sys_sleep with n > 0: marked as asleep ... */
  function Drowsy(s: St, n: Word): (r: St)
    requires Slot(s.pt, s.current)
    ensures SameShape(s, r) && r.current == s.current && r.mem == s.mem
  {
    s.(pt := s.pt[s.current := s.pt[s.current].(state := Sleeping, wakeup := (s.time + n) % TWO_32)])
  }

  /** ... and inserted into the sleep queue. */
  function SleeperIn(s: St, p: int): (r: Outcome)
    ensures r.Next? ==> SameShape(s, r.s)
  {
    match TakeQnode(s.mem)
    case None => Halted(NoMemory)
    case Some(m) => Next(s.(sleeping := Insert(s.sleeping, p, ByWakeup, Wakeups(s.pt)), mem := m))
  }

  lemma SleepParts(s: St, n: Word)
    requires Slot(s.pt, s.current) && |s.ready| == N_PRIOS
    ensures Sleep(s, n) == ThenDispatch(if n == 0 then Schedule(s, s.current) else SleeperIn(Drowsy(s, n), s.current))
  {
  }

  // ---- clk_isr -------------------------------------------------------------------------------

  /** Somebody is asleep whose time has come. */
  predicate Due(s: St) { s.sleeping != [] && KeyOf(Wakeups(s.pt), s.sleeping[0]) <= s.time }

  /** The first sleeper is taken off its queue. */
  function Popped(s: St): St
    requires s.sleeping != []
  {
    s.(sleeping := s.sleeping[1..], mem := FreeQnode(s.mem))
  }

  lemma WakeAllParts(s: St)
    requires |s.ready| == N_PRIOS
    ensures WakeAll(s) == if !Due(s) then Next(s) else
      var r := Schedule(Popped(s), s.sleeping[0]); if r.Halted? then r else WakeAll(r.s)
  {
  }

  /** One turn of the wake loop, from t. */
  lemma WakeStep(s: St, t: St, why: Option<Reason>, u: St)
    requires |s.ready| == N_PRIOS && |t.ready| == N_PRIOS && |u.ready| == N_PRIOS
    requires WakeAll(s) == WakeAll(t) && Due(t) && Agrees(Schedule(Popped(t), t.sleeping[0]), why, u)
    ensures if why == None then WakeAll(s) == WakeAll(u) else Agrees(WakeAll(s), why, u)
  {
    WakeAllParts(t);
  }

  lemma FewerAsleep(t: St, u: St)
    requires |t.ready| == N_PRIOS && Due(t) && Schedule(Popped(t), t.sleeping[0]) == Next(u)
    ensures |u.sleeping| < |t.sleeping|
  {
  }

  function Later(s: St): St { s.(time := (s.time + 1) % TWO_32) }

  lemma TickParts(s: St)
    requires Slot(s.pt, s.current) && |s.ready| == N_PRIOS
    ensures var w := WakeAll(Later(s)); Tick(s) == if w.Halted? then w else Expire(w.s)
  {
  }

  function Expired(s: St): St
    requires Slot(s.pt, s.current)
  {
    s.(pt := s.pt[s.current := s.pt[s.current].(quantum := (s.pt[s.current].quantum - 1) % 0x100)])
  }

  lemma ExpiredIs(s: St, c: Pcb)
    requires Slot(s.pt, s.current) && c == s.pt[s.current].(quantum := (s.pt[s.current].quantum - 1) % 0x100)
    ensures Expired(s) == s.(pt := s.pt[s.current := c])
  {
  }

  lemma ExpireParts(s: St)
    requires Slot(s.pt, s.current) && |s.ready| == N_PRIOS
    ensures var s1 := Expired(s);
      Expire(s) == if s1.pt[s.current].quantum < 1 then ThenDispatch(Schedule(s1, s.current)) else Next(s1)
  {
  }

  /** sys_fork before the child is scheduled. */
  function Forked(s: St, n: nat, stk: nat, prio: Word): St
    requires Slot(s.pt, s.current) && n < |s.pt|
  {
    var p := s.pt[s.current];
    s.(pt := s.pt[n := ChildPcb(s, stk, prio)][s.current := p.(ret := if stk == p.stack then 0 else s.nextPid)],
       nextPid := Wrap32(s.nextPid + 1), mem := TakeStack(s.mem),
       hist := s.hist.(forks := s.hist.forks + [Fork(s.nextPid, p.pid)]))
  }

  /** The parent has its return value, and the fork is on record. */
  function Parted(s: St, stk: nat, pid: int): St
    requires Slot(s.pt, s.current)
  {
    var p := s.pt[s.current];
    Returns(s, if stk == p.stack then 0 else pid).(hist := s.hist.(forks := s.hist.forks + [Fork(pid, p.pid)]))
  }

  /** The steps by which sys_fork fills in the child's PCB. */
  lemma ForkedIs(s: St, s0: St, s1: St, s2: St, n: nat, stk: nat, prio: Word)
    requires Slot(s.pt, s.current) && n < |s.pt| && n != s.current && s0 == s.(mem := TakeStack(s.mem))
    requires s1 == s0.(nextPid := Wrap32(s0.nextPid + 1)) && s2 == s1.(pt := s1.pt[n := ChildPcb(s0, stk, prio)])
    ensures Parted(s2, stk, s.nextPid) == Forked(s, n, stk, prio)
  {
  }

  lemma StaysUnused(pt: seq<Pcb>, n: nat)
    requires n < |pt| && pt[n].state == Unused
    ensures pt[n := pt[n].(state := Unused)] == pt
  {
    assert pt[n].(state := Unused) == pt[n];
  }

  lemma ForkParts(s: St, prio: Word)
    requires Slot(s.pt, s.current) && |s.ready| == N_PRIOS && s.pt[s.current].state != Unused
    ensures var n := FirstUnused(s.pt, 0);
      DoFork(s, prio) == if n == |s.pt| || StackGranted(s.mem) == 0 then Next(Returns(s, S_ERROR))
                         else Schedule(Forked(s, n, StackGranted(s.mem), prio), n)
  {
    var n := FirstUnused(s.pt, 0);
    if n < |s.pt| && StackGranted(s.mem) != 0 {
      assert n != s.current;
      var t := Forked(s, n, StackGranted(s.mem), prio);
      var child, me := t.pt[n], t.pt[s.current];
      assert s.pt[n := child][s.current := me] == s.pt[s.current := me][n := child];
    }
  }

  // ---- sys_isr ---------------------------------------------------------------------------------

  /** What a state between steps offers the call handlers. */
  lemma Entitled(s: St)
    requires Inv(s, s.current) && s.current != NIL
    ensures WellFormed(s) && s.pt[s.current].state == State.Running && s.pt[s.init].parent == s.init
  {
    CurrentRuns(s);
    var rank :| ProcFamily.Tree(s.pt, s.init, rank);
  }

  /** The calls other than exit. */
  function Call(s: St, code: int, a: Word, arg3: Word, io: int): Outcome
    requires Slot(s.pt, s.current) && |s.ready| == N_PRIOS && 1 <= code < 10
  {
    if code == 1 then Wait(s, a)
    else if code == 2 then DoFork(s, a)
    else if code == 3 then Next(Exec(s))
    else if code == 4 then Read(s, a, arg3, io)
    else if code == 5 then Next(Returns(s, if a < 2 then Wrap32(arg3) else S_BAD_CHAN))
    else if code == 6 then Sleep(s, a)
    else if code == 7 then Next(Returns(s, s.pt[s.current].pid))
    else if code == 8 then Next(Returns(s, Wrap32(s.time)))
    else GetPrio(s, Wrap32(a), io)
  }

  lemma SystemParts(s: St, s1: St, code: int, arg: Word, arg3: Word, io: int, call: int, a: Word)
    requires WellFormed(s)
    requires if code < 0 || code >= 10 then call == 0 && a == S_BAD_SYSCALL + TWO_32 else call == code && a == arg
    requires s1 == s.(pt := s.pt[s.current := s.pt[s.current].(arg := a)])
    ensures System(s, code, arg, arg3, io) == Served(s1, call, a, arg3, io)
  {
  }

  /** A call with a valid code, its argument already in the caller's context. */
  function Served(s: St, code: int, a: Word, arg3: Word, io: int): Outcome
    requires WellFormed(s) && 0 <= code < 10
  {
    if code == 0 then Exit(s, a) else Call(s, code, a, arg3, io)
  }

  /** One turn of a run that has gone from s to s0 with the first i events and goes on to s1. */
  lemma RunTurn(s: St, es: seq<Event>, i: nat, s0: St, why: Option<Reason>, s1: St)
    requires i < |es| && ProcSpec.Run(s, es) == ProcSpec.Run(s0, es[i..]) && Agrees(Step(s0, es[i]), why, s1)
    ensures why == None ==> ProcSpec.Run(s, es) == ProcSpec.Run(s1, es[i + 1..])
    ensures why != None ==> Agrees(ProcSpec.Run(s, es), why, s1)
  {
    assert es[i..][1..] == es[i + 1..];
  }

  // ---- main() ------------------------------------------------------------------------------------

  /** The state after que_init and pcb_init. */
  function Prepared(n: nat, free: seq<Block>): St {
    St(seq(n, _ => CLEARED), [[], [], []], [], [], NIL, NIL, FIRST_USER_PID, 0, ProcBoot.PoolMem(free),
       ProcBoot.NO_HISTORY)
  }

  /** init's PCB is filled in. */
  function InitMade(s: St): (r: Outcome)
    ensures r.Next? ==> r.s.ready == s.ready
  {
    if s.pt == [] then Halted(BadPcb) else
    if StackGranted(s.mem) == 0 then Halted(NoMemory) else
    Next(s.(init := 0, mem := TakeStack(s.mem), pt := s.pt[0 := ProcBoot.InitPcb(StackGranted(s.mem))]))
  }

  /** ProcBoot.Boot, step by step. */
  lemma BootParts(n: nat, free: seq<Block>)
    ensures ProcBoot.Boot(n, free) ==
      if GrantBase(free, 1) == 0 then Halted(NoMemory) else
      var s := Prepared(n, free);
      if StackGranted(s.mem) == 0 then Halted(NoMemory) else
      var r := InitMade(s.(mem := TakeStack(s.mem).(kstack := StackGranted(s.mem))));
      if r.Halted? then r else ThenDispatch(Schedule(r.s, r.s.init))
  {
  }

  /** km_page_alloc, while the queue module owns `pages`. */
  method BuyPages(km: KMem.KMem, ghost pages: seq<nat>, count: nat) returns (page: nat)
    requires km.PagesValid() && km.initialized && Q.Bought(pages, km.list)
    modifies km
    ensures km.PagesValid() && km.initialized && Q.Bought(pages, km.list)
    ensures page == GrantBase(old(km.list), count) && km.list == AllocList(old(km.list), count)
    ensures page == 0 ==> km.list == old(km.list)
  {
    var _, p := km.PageAlloc(count);
    page := p;
    if page == 0 { KMem.AllocNothing(old(km.list), count); } else { Q.BoughtAfter(pages, old(km.list), count); }
  }

  class Kernel {
    const ptable: array<Pcb>
    const pool: Q.QueuePool
    var current: int
    var initPcb: int
    var nextPid: int
    var systemTime: nat
    var freeStacks: nat          // head of the list of free stacks
    var link: map<nat, nat>      // the first words of the stacks
    var kstack: nat

    ghost var stacks: seq<nat>   // every stack ever bought
    ghost var hist: History

    ghost function Queue(q: nat): seq<int>
      reads this, pool
    {
      if q < |pool.chains| then pool.Contents(q) else []
    }

    ghost function MemAbs(): Mem
      reads this, pool, pool.km
    {
      Mem(pool.km.list, |pool.freeChain|, pool.pages, kstack, stacks, freeStacks, link)
    }

    ghost function Abs(): (s: St)
      reads this, ptable, pool, pool.km
      ensures |s.ready| == N_PRIOS
    {
      St(ptable[..], [Queue(0), Queue(1), Queue(2)], Queue(SLEEPING), Queue(ZOMBIES),
         current, initPcb, nextPid, systemTime, MemAbs(), hist)
    }

    /** The page allocator and the queues are in order, and the queues are the ones pcb_init made. */
    ghost predicate Valid()
      reads this, pool, pool.km
    {
      pool.Ready() && |pool.chains| == Q.N_QUEUES && QueuesReady(pool.inUse, pool.queues)
    }

    /** The statics before main() runs. */
    constructor (n: nat, km: KMem.KMem)
      requires km.PagesValid() && km.initialized
      ensures fresh(ptable) && fresh(pool) && pool.km == km && ptable.Length == n && Fresh()
    {
      ptable := new Pcb[n](_ => CLEARED);
      pool := new Q.QueuePool(km);
      current, initPcb, nextPid, systemTime := NIL, NIL, FIRST_USER_PID, 0;
      freeStacks, link, kstack, stacks, hist := 0, map[], 0, [], ProcBoot.NO_HISTORY;
    }

    // ---- one change at a time --------------------------------------------------------------

    /** A field of a PCB changes. */
    method SetPcb(p: int, c: Pcb)
      requires Valid() && 0 <= p < ptable.Length
      modifies ptable
      ensures Valid() && Abs() == old(Abs()).(pt := old(Abs()).pt[p := c])
    {
      ptable[p] := c;
      assert ptable[..] == old(ptable[..])[p := c];
    }

    /** The queues as Abs has them. */
    lemma QueueIs(q: nat)
      requires q <= ZOMBIES
      ensures QueueOf(Abs(), q) == Queue(q)
    {
    }

    /** The queue module's part of que_insert. */
    method PoolInsert(q: nat, p: int, keys: seq<nat>) returns (ok: bool)
      requires Valid() && q <= ZOMBIES
      modifies pool, pool.km
      ensures Valid() && ok == TakeQnode(old(MemAbs())).Some?
      ensures ok ==> MemAbs() == TakeQnode(old(MemAbs())).value
      ensures ok ==> forall t: nat :: t <= ZOMBIES ==>
        Queue(t) == if t == q then Insert(old(Queue(q)), p, OrderOf(q), keys) else old(Queue(t))
    {
      ghost var queues0 := pool.queues;
      ok := pool.QueInsert(q, p, keys);
      PoolShape(pool);
      QueuesStayReady(pool.inUse, queues0, pool.queues);
    }

    /** que_insert */
    method Enqueue(q: nat, p: int, keys: seq<nat>) returns (ok: bool)
      requires Valid() && q <= ZOMBIES
      modifies pool, pool.km
      ensures Valid() && ok == TakeQnode(old(Abs()).mem).Some?
      ensures ok ==> Abs() == WithQueue(old(Abs()), q, Insert(QueueOf(old(Abs()), q), p, OrderOf(q), keys))
                                .(mem := TakeQnode(old(Abs()).mem).value)
    {
      ghost var s := Abs();
      QueueIs(q);
      forall t: nat | t <= ZOMBIES ensures QueueOf(s, t) == Queue(t) { QueueIs(t); }
      ok := PoolInsert(q, p, keys);
      if ok {
        forall t: nat | t <= ZOMBIES ensures QueueOf(Abs(), t) == Queue(t) { QueueIs(t); }
        OneQueueChanged(s, Abs(), q, Insert(QueueOf(s, q), p, OrderOf(q), keys));
      }
    }

    /** The queue module's part of que_remove. */
    method PoolRemove(q: nat) returns (code: Q.Ecode, p: int)
      requires Valid() && q <= ZOMBIES
      modifies pool
      ensures Valid() && code == (if old(Queue(q)) == [] then Q.E_EMPTY else Q.E_SUCCESS)
      ensures code == Q.E_SUCCESS ==> p == old(Queue(q))[0]
      ensures MemAbs() == if code == Q.E_SUCCESS then FreeQnode(old(MemAbs())) else old(MemAbs())
      ensures forall t: nat :: t <= ZOMBIES ==>
        Queue(t) == if t == q && code == Q.E_SUCCESS then old(Queue(q))[1..] else old(Queue(t))
    {
      ghost var queues0 := pool.queues;
      code, p := pool.QueRemove(q, true);
      PoolShape(pool);
      QueuesStayReady(pool.inUse, queues0, pool.queues);
    }

    /** que_remove */
    method Dequeue(q: nat) returns (code: Q.Ecode, p: int)
      requires Valid() && q <= ZOMBIES
      modifies pool
      ensures Valid() && code == (if QueueOf(old(Abs()), q) == [] then Q.E_EMPTY else Q.E_SUCCESS)
      ensures code == Q.E_SUCCESS ==> p == QueueOf(old(Abs()), q)[0]
      ensures code == Q.E_SUCCESS ==>
                Abs() == WithQueue(old(Abs()), q, QueueOf(old(Abs()), q)[1..]).(mem := FreeQnode(old(Abs()).mem))
      ensures code == Q.E_EMPTY ==> Abs() == old(Abs())
    {
      ghost var s := Abs();
      forall t: nat | t <= ZOMBIES ensures QueueOf(s, t) == Queue(t) { QueueIs(t); }
      code, p := PoolRemove(q);
      forall t: nat | t <= ZOMBIES ensures QueueOf(Abs(), t) == Queue(t) { QueueIs(t); }
      OneQueueChanged(s, Abs(), q, if code == Q.E_SUCCESS then QueueOf(s, q)[1..] else QueueOf(s, q));
    }

    /** The queue module's part of que_remove_by. */
    method PoolRemoveBy(q: nat, p: int) returns (code: Q.Ecode)
      requires Valid() && q <= ZOMBIES && p != NIL
      modifies pool
      ensures Valid() && (code == Q.E_SUCCESS <==> p in old(Queue(q)))
      ensures MemAbs() == if code == Q.E_SUCCESS then FreeQnode(old(MemAbs())) else old(MemAbs())
      ensures forall t: nat :: t <= ZOMBIES ==>
        Queue(t) == if t == q && code == Q.E_SUCCESS then RemoveFirst(old(Queue(q)), p) else old(Queue(t))
    {
      ghost var queues0 := pool.queues;
      code := pool.QueRemoveBy(q, p);
      PoolShape(pool);
      QueuesStayReady(pool.inUse, queues0, pool.queues);
    }

    /** que_remove_by on the zombie queue. */
    method Unzombie(p: int) returns (ok: bool)
      requires Valid() && p != NIL
      modifies pool
      ensures Valid() && ok == (p in old(Abs()).zombie)
      ensures ok ==> Abs() == old(Abs()).(zombie := RemoveFirst(old(Abs()).zombie, p), mem := FreeQnode(old(Abs()).mem))
    {
      ghost var s := Abs();
      forall t: nat | t <= ZOMBIES ensures QueueOf(s, t) == Queue(t) { QueueIs(t); }
      var code := PoolRemoveBy(ZOMBIES, p);
      forall t: nat | t <= ZOMBIES ensures QueueOf(Abs(), t) == Queue(t) { QueueIs(t); }
      ok := code == Q.E_SUCCESS;
      OneQueueChanged(s, Abs(), ZOMBIES, if ok then RemoveFirst(s.zombie, p) else s.zombie);
    }

    /** The kernel keeps no history; this is for the specification alone. */
    ghost method Record(h: History)
      requires Valid()
      modifies this`hist
      ensures Valid() && Abs() == old(Abs()).(hist := h)
    {
      hist := h;
    }

    // ---- kernel/stacks.c -------------------------------------------------------------------

    /** The free stack list and the words its links are kept in. */
    method SetStacks(head: nat, words: map<nat, nat>)
      requires Valid()
      modifies this`freeStacks, this`link
      ensures Valid() && Abs() == old(Abs()).(mem := old(Abs()).mem.(stkHead := head, link := words))
    {
      freeStacks, link := head, words;
    }

    /** km_page_alloc(STACK_PAGES) */
    method BuyStack() returns (stk: nat)
      requires Valid()
      modifies this`stacks, pool.km
      ensures Valid() && stk == GrantBase(old(Abs()).mem.free, STACK_PAGES)
      ensures stk == 0 ==> Abs() == old(Abs())
      ensures stk != 0 ==> Abs() == old(Abs()).(mem := Bought(old(Abs()).mem, stk))
    {
      stk := GetPages();
      if stk != 0 { AddStack(stk); }
    }

    method GetPages() returns (stk: nat)
      requires Valid()
      modifies pool.km
      ensures Valid() && stk == GrantBase(old(Abs()).mem.free, STACK_PAGES)
      ensures stk == 0 ==> Abs() == old(Abs())
      ensures stk != 0 ==>
                Abs() == old(Abs()).(mem := old(Abs()).mem.(free := AllocList(old(Abs()).mem.free, STACK_PAGES)))
    {
      stk := BuyPages(pool.km, pool.pages, STACK_PAGES);
    }

    /** The stack is one the kernel has bought. */
    ghost method AddStack(stk: nat)
      requires Valid()
      modifies this`stacks
      ensures Valid() && Abs() == old(Abs()).(mem := old(Abs()).mem.(stacks := old(Abs()).mem.stacks + [stk]))
    {
      stacks := stacks + [stk];
    }

    /** stk_alloc */
    method StkAlloc() returns (stk: nat)
      requires Valid()
      modifies this`freeStacks, this`link, this`stacks, pool.km
      ensures Valid() && stk == StackGranted(old(Abs()).mem)
      ensures Abs() == old(Abs()).(mem := TakeStack(old(Abs()).mem))
    {
      TakeStackParts(Abs().mem);
      if freeStacks == 0 {
        stk := BuyStack();
        if stk != 0 { SetStacks(0, link[stk := 0]); }
      } else {
        stk := freeStacks;
        var next := if stk in link then link[stk] else 0;
        SetStacks(next, link[stk := 0]);
      }
    }

    /** stk_free */
    method StkFree(stk: nat)
      requires Valid()
      modifies this`freeStacks, this`link
      ensures Valid() && Abs() == old(Abs()).(mem := GiveStack(old(Abs()).mem, stk))
    {
      SetStacks(stk, link[stk := freeStacks]);
    }

    // ---- kernel/procs.c --------------------------------------------------------------------

    /** pcb_alloc: the first unused slot, or the table size when there is none. */
    method PcbAlloc() returns (p: nat)
      ensures p == FirstUnused(ptable[..], 0)
    {
      p := 0;
      while p < ptable.Length && ptable[p].state != Unused
        invariant p <= ptable.Length && FirstUnused(ptable[..], 0) == FirstUnused(ptable[..], p)
      {
        p := p + 1;
      }
    }

    /** pcb_find_pid */
    method PcbFindPid(pid: int) returns (p: nat)
      ensures p == FindPid(ptable[..], pid, 0)
    {
      p := 0;
      while p < ptable.Length && !(ptable[p].pid == pid && ptable[p].state != Unused)
        invariant p <= ptable.Length && FindPid(ptable[..], pid, 0) == FindPid(ptable[..], pid, p)
      {
        p := p + 1;
      }
    }

    /** pcb_find_child_of: the first child in table order, or NIL. */
    method PcbFindChildOf(parent: int) returns (c: int)
      ensures c == NIL || ChildOf(ptable[..], c, parent)
      ensures forall i :: 0 <= i < (if c == NIL then ptable.Length else c) ==> !ChildOf(ptable[..], i, parent)
    {
      c := 0;
      while c < ptable.Length
        invariant 0 <= c <= ptable.Length
        invariant forall i :: 0 <= i < c ==> !ChildOf(ptable[..], i, parent)
      {
        if c != parent && ptable[c].parent == parent && ptable[c].state != Unused { return; }
        c := c + 1;
      }
      c := NIL;
    }

    /** pcb_zombify */
    method PcbZombify(p: int) returns (why: Option<Reason>)
      requires Valid() && 0 <= p < ptable.Length
      modifies ptable, pool, pool.km
      ensures Agrees(Zombify(old(Abs()), p), why, Abs()) && (why == None ==> Valid())
    {
      ghost var s := Abs();
      SetPcb(p, ptable[p].(state := Zombie));
      var ok := Enqueue(ZOMBIES, p, []);
      why := if ok then None else Some(NoMemory);
    }

    /** pcb_cleanup, with pcb_free */
    method PcbCleanup(p: int)
      requires Valid() && 0 <= p < ptable.Length
      modifies this`freeStacks, this`link, ptable
      ensures Valid() && Abs() == Cleanup(old(Abs()), p)
    {
      CleanupParts(Abs(), p);
      if ptable[p].stack != 0 {
        StkFree(ptable[p].stack);
        SetPcb(p, ptable[p].(stack := 0));
      }
      SetPcb(p, ptable[p].(state := Unused));
    }

    /** schedule */
    method Schedule(p: int) returns (why: Option<Reason>)
      requires Valid()
      modifies ptable, pool, pool.km
      ensures Agrees(ProcSpec.Schedule(old(Abs()), p), why, Abs()) && (why == None ==> Valid())
    {
      if !(0 <= p < ptable.Length) { return Some(BadPcb); }
      if ptable[p].priority >= N_PRIOS { return Some(BadPriority); }
      var ok := Enqueue(ptable[p].priority, p, []);
      if !ok { return Some(NoMemory); }
      SetPcb(p, ptable[p].(state := Ready));
      return None;
    }

    /** The loop of dispatch: the head of the highest non-empty ready queue. */
    method TakeReady() returns (found: bool, p: int, ghost i: nat)
      requires Valid()
      modifies pool
      ensures Valid() && i == TopLevel(old(Abs()).ready) && found == (i < N_PRIOS)
      ensures found ==> old(Abs()).ready[i] != [] && p == old(Abs()).ready[i][0]
      ensures found ==> Abs() == WithQueue(old(Abs()), i, old(Abs()).ready[i][1..]).(mem := FreeQnode(old(Abs()).mem))
    {
      ghost var s := Abs();
      var level := 0;
      while level < N_PRIOS
        invariant 0 <= level <= N_PRIOS && Valid() && Abs() == s
        invariant level <= TopLevel(s.ready)
        modifies pool
      {
        LevelKnown(s.ready, level);
        found, p := TakeFrom(level);
        if found { return found, p, level; }
        level := level + 1;
      }
      return false, NIL, N_PRIOS;
    }

    method TakeFrom(level: nat) returns (found: bool, p: int)
      requires Valid() && level < N_PRIOS
      modifies pool
      ensures Valid() && found == (old(Abs()).ready[level] != [])
      ensures found ==> p == old(Abs()).ready[level][0]
      ensures Abs() == if !found then old(Abs()) else
        WithQueue(old(Abs()), level, old(Abs()).ready[level][1..]).(mem := FreeQnode(old(Abs()).mem))
    {
      var code, q := Dequeue(level);
      return code == Q.E_SUCCESS, q;
    }

    /** dispatch */
    method Dispatch() returns (why: Option<Reason>)
      requires Valid()
      modifies this`current, this`hist, ptable, pool
      ensures Agrees(ProcSpec.Dispatch(old(Abs())), why, Abs())
      ensures why == None ==> Valid()
    {
      DispatchParts(Abs());
      var found, p, i := TakeReady();
      if !found { return Some(NobodyReady); }
      GiveProcessor(p);
      return None;
    }

    /** The last part of dispatch.  The queues hold nothing but table entries (ProcSched.Placed), so
        the test always succeeds. */
    method GiveProcessor(p: int)
      requires Valid()
      modifies this`current, this`hist, ptable
      ensures Valid() && Abs() == OnProcessor(old(Abs()), p)
    {
      if 0 <= p < ptable.Length { SetPcb(p, ptable[p].(state := Running, quantum := Q_STD)); }
      MakeCurrent(p);
      Record(hist.(dispatches := hist.dispatches + 1));
    }

    method MakeCurrent(p: int)
      requires Valid()
      modifies this`current
      ensures Valid() && Abs() == old(Abs()).(current := p)
    {
      current := p;
    }

    // ---- kernel/syscalls.c: exit and wait --------------------------------------------------------

    /** status_return */
    method ReturnStatus(parent: int, child: int)
      requires Valid() && 0 <= parent < ptable.Length && 0 <= child < ptable.Length
      modifies this`hist, ptable
      ensures Valid() && Abs() == StatusReturn(old(Abs()), parent, child)
    {
      ghost var c, to := ptable[child], ptable[parent].pid;
      var ret, status := ptable[child].pid, ptable[child].status;
      var got := if ptable[parent].arg != 0 then Some(status) else ptable[parent].got;
      SetPcb(parent, ptable[parent].(ret := ret, got := got));
      Record(hist.(log := hist.log + [Delivery(Exited(c.pid, c.status), to)]));
    }

    /** The body of sys_exit's loop: `next` becomes init's, and is remembered if it is dead. */
    method AdoptChild(next: int, last: int, ghost s: St, ghost p: int, ghost k: nat)
      returns (forInit: int, ghost k': nat)
      requires Valid() && p != initPcb && k <= |s.pt| && last == LastDeadChild(s.pt, p, k)
      requires Abs() == s.(pt := AdoptUpTo(s.pt, p, initPcb, k)) && ChildOf(Abs().pt, next, p)
      requires forall i :: 0 <= i < next ==> !ChildOf(Abs().pt, i, p)
      modifies ptable
      ensures Valid() && k < k' <= |s.pt| && forInit == LastDeadChild(s.pt, p, k')
      ensures Abs() == s.(pt := AdoptUpTo(s.pt, p, initPcb, k'))
    {
      k' := AdoptedTo(s.pt, p, initPcb, k, next);
      forInit := if ptable[next].state == Zombie then next else last;
      SetPcb(next, ptable[next].(parent := initPcb));
    }

    /** The loop of sys_exit that gives p's children to init; the last dead one is remembered. */
    method Reparent(p: int) returns (forInit: int)
      requires Valid() && p != initPcb
      modifies ptable
      ensures Valid() && Abs() == old(Abs()).(pt := Adopt(old(Abs()).pt, p, initPcb))
      ensures forInit == LastDeadChild(old(Abs()).pt, p, |old(Abs()).pt|)
    {
      forInit := NIL;
      ghost var s, k := Abs(), 0;
      assert s.pt == AdoptUpTo(s.pt, p, initPcb, 0);
      var more := true;
      while more
        invariant 0 <= k <= |s.pt| && Valid()
        invariant Abs() == s.(pt := AdoptUpTo(s.pt, p, initPcb, k))
        invariant forInit == LastDeadChild(s.pt, p, k)
        invariant !more ==> AllAdopted(Abs().pt, p)
        decreases |s.pt| - k, more
      {
        var next := PcbFindChildOf(p);
        if next == NIL { more := false; } else { forInit, k := AdoptChild(next, forInit, s, p, k); }
      }
      AdoptDone(s.pt, p, initPcb, k);
    }

    /** The part of sys_exit that hands one inherited zombie to a waiting init. */
    method WakeInit(z: int) returns (why: Option<Reason>)
      requires Valid() && 0 <= initPcb < ptable.Length && 0 <= z < ptable.Length
      modifies this`hist, this`freeStacks, this`link, ptable, pool, pool.km
      ensures Agrees(ProcSpec.WakeInit(old(Abs()), z), why, Abs())
      ensures why == None ==> Valid()
    {
      var ok := Unzombie(z);
      if !ok { return Some(LostZombie); }
      why := Report(z, initPcb);
    }

    /** The last part of sys_exit before it dispatches: tell a waiting parent, or leave a zombie. */
    method Finish(p: int, parent: int) returns (why: Option<Reason>)
      requires Valid() && 0 <= p < ptable.Length && 0 <= parent < ptable.Length
      modifies this`hist, this`freeStacks, this`link, ptable, pool, pool.km
      ensures Agrees(ProcSpec.Finish(old(Abs()), p, parent), why, Abs())
      ensures why == None ==> Valid()
    {
      Record(hist.(exits := hist.exits + [Exited(ptable[p].pid, ptable[p].status)]));
      if ptable[parent].state == Waiting { why := Report(p, parent); } else { why := PcbZombify(p); }
    }

    /** The status goes to the waiting parent, which is woken; the child is gone. */
    method Report(child: int, parent: int) returns (why: Option<Reason>)
      requires Valid() && 0 <= child < ptable.Length && 0 <= parent < ptable.Length
      modifies this`hist, this`freeStacks, this`link, ptable, pool, pool.km
      ensures Agrees(Reported(old(Abs()), child, parent), why, Abs())
      ensures why == None ==> Valid()
    {
      ReturnStatus(parent, child);
      why := Schedule(parent);
      if why != None { return; }
      PcbCleanup(child);
    }

    /** The first part of sys_exit: the status is kept, the children go to init. */
    method GiveUpChildren(status: Word) returns (why: Option<Reason>)
      requires Valid() && 0 <= current < ptable.Length && 0 <= initPcb < ptable.Length && current != initPcb
      modifies this`hist, this`freeStacks, this`link, ptable, pool, pool.km
      ensures Agrees(Bequeath(old(Abs()), status), why, Abs())
      ensures why == None ==> Valid()
    {
      SetPcb(current, ptable[current].(status := Wrap32(status)));
      var forInit := Reparent(current);
      if forInit != NIL && ptable[initPcb].state == Waiting {
        why := WakeInit(forInit);
      } else {
        why := None;
      }
    }

    /** The rest of sys_exit. */
    method FinishAndDispatch(p: int, parent: int) returns (why: Option<Reason>)
      requires Valid() && 0 <= p < ptable.Length && 0 <= parent < ptable.Length
      modifies this`current, this`hist, this`freeStacks, this`link, ptable, pool, pool.km
      ensures Agrees(ThenDispatch(ProcSpec.Finish(old(Abs()), p, parent)), why, Abs())
      ensures why == None ==> Valid()
    {
      why := Finish(p, parent);
      if why != None { return; }
      why := Dispatch();
    }

    /** sys_exit.  init is its own parent, so nobody else's children are given to themselves. */
    method SysExit(status: Word) returns (why: Option<Reason>)
      requires Valid() && 0 <= current < ptable.Length && 0 <= initPcb < ptable.Length
      requires ptable[initPcb].parent == initPcb
      modifies this`current, this`hist, this`freeStacks, this`link, ptable, pool, pool.km
      ensures Agrees(Exit(old(Abs()), status), why, Abs())
      ensures why == None ==> Valid()
    {
      ExitParts(Abs(), status);
      var p, parent := current, ptable[current].parent;
      if !(0 <= parent < ptable.Length) || ptable[parent].state == Unused { return Some(NoParent); }
      if parent == p { return Some(InitExits); }
      why := GiveUpChildren(status);
      if why != None { return; }
      why := FinishAndDispatch(p, parent);
    }

    /** The scan of sys_wait: the first dead child, and whether any child was seen before it. */
    method ScanChildren(p: int) returns (child: int, nkids: nat)
      ensures child == FirstDeadChild(ptable[..], p, 0)
      ensures child == NIL ==> (nkids > 0 <==> exists c :: 0 <= c < ptable.Length && ChildOf(ptable[..], c, p))
    {
      nkids := 0;
      var i := 0;
      while i < ptable.Length
        invariant 0 <= i <= ptable.Length && FirstDeadChild(ptable[..], p, 0) == FirstDeadChild(ptable[..], p, i)
        invariant nkids > 0 <==> exists c :: 0 <= c < i && ChildOf(ptable[..], c, p)
      {
        if i != p && ptable[i].parent == p && ptable[i].state != Unused {
          assert ChildOf(ptable[..], i, p);
          nkids := nkids + 1;
          if ptable[i].state == Zombie { return i, nkids; }
        }
        i := i + 1;
      }
      child := NIL;
    }

    /** sys_wait */
    method SysWait(ptr: Word) returns (why: Option<Reason>)
      requires Valid() && 0 <= current < ptable.Length
      modifies this`current, this`hist, this`freeStacks, this`link, ptable, pool
      ensures Agrees(Wait(old(Abs()), ptr), why, Abs())
      ensures why == None ==> Valid()
    {
      var p := current;
      var child, nkids := ScanChildren(p);
      if child != NIL {
        ReturnStatus(p, child);
        PcbCleanup(child);
        Record(hist.(stale := hist.stale + multiset{child}));
        return None;
      }
      if nkids < 1 {
        SetPcb(p, ptable[p].(ret := S_NO_CHILD));
        return None;
      }
      SetPcb(p, ptable[p].(state := Waiting));
      why := Dispatch();
    }

    // ---- kernel/syscalls.c: fork, exec, sleep and the others -------------------------------------

    /** RET(pcb) = value */
    method Return(value: int)
      requires Valid() && 0 <= current < ptable.Length
      modifies ptable
      ensures Valid() && Abs() == Returns(old(Abs()), value)
    {
      SetPcb(current, ptable[current].(ret := value));
    }

    /** next_pid++ */
    method NextPid() returns (pid: int)
      requires Valid()
      modifies this`nextPid
      ensures Valid() && pid == old(Abs()).nextPid && Abs() == old(Abs()).(nextPid := Wrap32(old(Abs()).nextPid + 1))
    {
      pid := nextPid;
      nextPid := Wrap32(nextPid + 1);
    }

    /** sys_fork, up to the copying of the stack.  prio_t is one byte wide. */
    method SysFork(prio: Word) returns (why: Option<Reason>)
      requires Valid() && 0 <= current < ptable.Length && ptable[current].state != Unused
      modifies this`hist, this`freeStacks, this`link, this`stacks, this`nextPid, ptable, pool, pool.km
      ensures Agrees(DoFork(old(Abs()), prio), why, Abs())
      ensures why == None ==> Valid()
    {
      ghost var s := Abs();
      ForkParts(s, prio);
      var n := PcbAlloc();
      if n == ptable.Length {
        Return(S_ERROR);
        return None;
      }
      var stk := StkAlloc();
      if stk == 0 {
        SetPcb(n, ptable[n].(state := Unused));
        StaysUnused(s.pt, n);
        Return(S_ERROR);
        return None;
      }
      NewChild(n, stk, prio, s);
      why := Schedule(n);
    }

    /** The PCB of the new process, in the slot and with the stack it was given, and both return values:
        RET(new) = 0 overwrites the parent's when the two contexts are one. */
    method NewChild(n: nat, stk: nat, prio: Word, ghost s: St)
      requires Valid() && 0 <= current < ptable.Length && n < ptable.Length && n != current
      requires Abs() == s.(mem := TakeStack(s.mem))
      modifies this`hist, this`nextPid, ptable
      ensures Valid() && Abs() == Forked(s, n, stk, prio)
    {
      ghost var s0 := Abs();
      var pid := NextPid();
      ghost var s1 := Abs();
      FillPcb(n, stk, prio, pid, s0);
      ghost var s2 := Abs();
      ForkedIs(s, s0, s1, s2, n, stk, prio);
      ForkReturns(stk, pid);
    }

    /** What the parent gets; and the fork is recorded. */
    method ForkReturns(stk: nat, pid: int)
      requires Valid() && 0 <= current < ptable.Length
      modifies this`hist, ptable
      ensures Valid() && Abs() == Parted(old(Abs()), stk, pid)
    {
      Return(if stk == ptable[current].stack then 0 else pid);
      Record(hist.(forks := hist.forks + [Fork(pid, ptable[current].pid)]));
    }

    /** The fields of the child's PCB; s is the state before next_pid moved on. */
    method FillPcb(n: nat, stk: nat, prio: Word, pid: int, ghost s: St)
      requires Valid() && 0 <= current < ptable.Length && n < ptable.Length
      requires pid == s.nextPid && Abs() == s.(nextPid := Abs().nextPid)
      modifies ptable
      ensures Valid() && Slot(s.pt, s.current) && Abs() == old(Abs()).(pt := old(Abs()).pt[n := ChildPcb(s, stk, prio)])
    {
      var asked := prio % 0x100;
      var child := CLEARED.(state := New, stack := stk, parent := current, pid := pid, arg := ptable[current].arg,
                            priority := if asked == PRIO_INHERIT then ptable[current].priority else asked);
      assert child == ChildPcb(s, stk, prio);
      SetPcb(n, child);
    }

    /** sys_exec: the old stack is freed, but the PCB keeps naming it. */
    method SysExec()
      requires Valid() && 0 <= current < ptable.Length
      modifies this`freeStacks, this`link, this`stacks, ptable, pool.km
      ensures Valid() && Abs() == Exec(old(Abs()))
    {
      var oldstack := ptable[current].stack;
      var stk := StkAlloc();
      if stk == 0 {
        Return(S_ERROR);
        return;
      }
      StkFree(oldstack);
      Return(0);
    }

    /** sys_read.  `io` is what the device answers: the number of characters available. */
    method SysRead(chan: Word, len: Word, io: int) returns (why: Option<Reason>)
      requires Valid() && 0 <= current < ptable.Length
      modifies ptable
      ensures Agrees(Read(old(Abs()), chan, len, io), why, Abs())
      ensures why == None ==> Valid()
    {
      why := None;
      if len == 0 {
        Return(0);
      } else if chan == 0 {
        if io < 1 { Return(0); } else { Return(io); }
      } else if chan == 1 {
        if io < 1 { return Some(ReadBlocks); }
        Return(io);
      } else {
        Return(S_BAD_CHAN);
      }
    }

    /** sys_getprio.  For an unknown PID it reads through a null pointer: `io` is what it finds there. */
    method SysGetprio(pid: int, io: int) returns (why: Option<Reason>)
      requires Valid() && 0 <= current < ptable.Length
      modifies ptable
      ensures Agrees(GetPrio(old(Abs()), pid, io), why, Abs())
      ensures why == None ==> Valid()
    {
      why := None;
      if pid == 0 || pid == ptable[current].pid {
        Return(ptable[current].priority);
      } else {
        if pid < FIRST_USER_PID { return Some(BadPid); }
        var q := PcbFindPid(pid);
        if q < ptable.Length { Return(ptable[q].priority); } else { Return(io); }
      }
    }

    /** que_insert(sleeping, p): comp_wakeup reads the wakeup times from the table. */
    method InsertSleeper(p: int) returns (why: Option<Reason>)
      requires Valid()
      modifies pool, pool.km
      ensures Agrees(SleeperIn(old(Abs()), p), why, Abs())
      ensures why == None ==> Valid()
    {
      var ok := Enqueue(SLEEPING, p, Wakeups(ptable[..]));
      why := if ok then None else Some(NoMemory);
    }

    method MarkAsleep(n: Word)
      requires Valid() && 0 <= current < ptable.Length
      modifies ptable
      ensures Valid() && Abs() == Drowsy(old(Abs()), n)
    {
      assert Abs().time == systemTime && Abs().pt[current] == ptable[current];
      var wakeup := (systemTime + n) % TWO_32;
      SetPcb(current, ptable[current].(state := Sleeping, wakeup := wakeup));
    }

    /** sys_sleep */
    method SysSleep(n: Word) returns (why: Option<Reason>)
      requires Valid() && 0 <= current < ptable.Length
      modifies this`current, this`hist, ptable, pool, pool.km
      ensures Agrees(Sleep(old(Abs()), n), why, Abs())
      ensures why == None ==> Valid()
    {
      SleepParts(Abs(), n);
      if n == 0 {
        why := Schedule(current);
      } else {
        MarkAsleep(n);
        why := InsertSleeper(current);
      }
      if why != None { return; }
      why := Dispatch();
    }

    // ---- kernel/clock.c ----------------------------------------------------------------------------

    /** que_peek(sleeping) and the comparison with the time. */
    method PeekSleeper() returns (due: bool, p: int)
      requires Valid()
      ensures due == Due(Abs()) && (due ==> p == Abs().sleeping[0])
    {
      var code, data := pool.QuePeek(SLEEPING, true);
      if code != Q.E_SUCCESS { return false, NIL; }
      p := data;
      due := !(0 <= p < ptable.Length && ptable[p].wakeup > systemTime);
    }

    /** que_remove(sleeping) */
    method TakeSleeper()
      requires Valid() && Abs().sleeping != []
      modifies pool
      ensures Valid() && Abs() == Popped(old(Abs()))
    {
      var _, _ := Dequeue(SLEEPING);
    }

    method WakeFirst(p: int) returns (why: Option<Reason>)
      requires Valid() && Due(Abs()) && p == Abs().sleeping[0]
      modifies ptable, pool, pool.km
      ensures Agrees(ProcSpec.Schedule(Popped(old(Abs())), p), why, Abs())
      ensures why == None ==> Valid()
    {
      TakeSleeper();
      why := Schedule(p);
    }

    /** One turn of clk_isr's wake loop, and the next look at the queue. */
    method WakeTurn(head: int, ghost s: St) returns (why: Option<Reason>, due: bool, p: int)
      requires Valid() && Due(Abs()) && head == Abs().sleeping[0]
      requires |s.ready| == N_PRIOS && WakeAll(s) == WakeAll(Abs())
      modifies ptable, pool, pool.km
      ensures why != None ==> Agrees(WakeAll(s), why, Abs())
      ensures why == None ==> Valid() && WakeAll(s) == WakeAll(Abs()) && |Abs().sleeping| < |old(Abs()).sleeping|
      ensures why == None ==> due == Due(Abs()) && (due ==> p == Abs().sleeping[0])
    {
      ghost var t := Abs();
      why := WakeFirst(head);
      WakeStep(s, t, why, Abs());
      if why != None { return why, false, NIL; }
      FewerAsleep(t, Abs());
      due, p := PeekSleeper();
    }

    /** The wake loop of clk_isr. */
    method WakeSleepers() returns (why: Option<Reason>)
      requires Valid()
      modifies ptable, pool, pool.km
      ensures Agrees(WakeAll(old(Abs())), why, Abs())
      ensures why == None ==> Valid()
    {
      ghost var s := Abs();
      var due, p := PeekSleeper();
      while due
        invariant Valid() && WakeAll(s) == WakeAll(Abs())
        invariant due == Due(Abs()) && (due ==> p == Abs().sleeping[0])
        decreases |Abs().sleeping|
      {
        why, due, p := WakeTurn(p, s);
        if why != None { return; }
      }
      WakeAllParts(Abs());
      why := None;
    }

    method UseQuantum()
      requires Valid() && 0 <= current < ptable.Length
      modifies ptable
      ensures Valid() && Abs() == Expired(old(Abs()))
    {
      var c := ptable[current].(quantum := (ptable[current].quantum - 1) % 0x100);
      ExpiredIs(Abs(), c);
      SetPcb(current, c);
    }

    /** The end of clk_isr: the current process may have used up its time. */
    method CheckQuantum() returns (why: Option<Reason>)
      requires Valid() && 0 <= current < ptable.Length
      modifies this`current, this`hist, ptable, pool, pool.km
      ensures Agrees(Expire(old(Abs())), why, Abs())
      ensures why == None ==> Valid()
    {
      ExpireParts(Abs());
      UseQuantum();
      if ptable[current].quantum >= 1 { return None; }
      why := Schedule(current);
      if why != None { return; }
      why := Dispatch();
    }

    method Advance()
      requires Valid()
      modifies this`systemTime
      ensures Valid() && Abs() == Later(old(Abs()))
    {
      assert Abs().time == systemTime;
      var next := (systemTime + 1) % TWO_32;
      SetTime(next);
    }

    method SetTime(t: nat)
      requires Valid()
      modifies this`systemTime
      ensures Valid() && Abs() == old(Abs()).(time := t)
    {
      systemTime := t;
    }

    /** Time marches on, and sleepers wake. */
    method WakePhase() returns (why: Option<Reason>)
      requires Valid()
      modifies this`systemTime, ptable, pool, pool.km
      ensures Agrees(WakeAll(Later(old(Abs()))), why, Abs())
      ensures why == None ==> Valid()
    {
      Advance();
      why := WakeSleepers();
    }

    /** clk_isr */
    method ClkIsr() returns (why: Option<Reason>)
      requires Valid() && 0 <= current < ptable.Length
      modifies this`current, this`hist, this`systemTime, ptable, pool, pool.km
      ensures Agrees(Tick(old(Abs())), why, Abs())
      ensures why == None ==> Valid()
    {
      TickParts(Abs());
      why := WakePhase();
      if why != None { return; }
      why := CheckQuantum();
    }

    // ---- sys_isr and whole runs -----------------------------------------------------------------

    /** The process puts its first argument where ARG(current, 1) finds it. */
    method SetArg(a: Word)
      requires Valid() && 0 <= current < ptable.Length
      modifies ptable
      ensures Valid() && Abs() == old(Abs()).(pt := old(Abs()).pt[current := old(Abs()).pt[current].(arg := a)])
    {
      SetPcb(current, ptable[current].(arg := a));
    }

    /** The jump table of sys_isr, for the calls other than exit. */
    method OtherCall(code: int, a: Word, arg3: Word, io: int) returns (why: Option<Reason>)
      requires Valid() && 0 <= current < ptable.Length && ptable[current].state != Unused && 1 <= code < 10
      modifies this, ptable, pool, pool.km
      ensures Agrees(Call(old(Abs()), code, a, arg3, io), why, Abs())
      ensures why == None ==> Valid()
    {
      why := None;
      if code == 1 { why := SysWait(a); }
      else if code == 2 { why := SysFork(a); }
      else if code == 3 { SysExec(); }
      else if code == 4 { why := SysRead(a, arg3, io); }
      else if code == 5 { Return(if a < 2 then Wrap32(arg3) else S_BAD_CHAN); }
      else if code == 6 { why := SysSleep(a); }
      else if code == 7 { Return(ptable[current].pid); }
      else if code == 8 { Return(Wrap32(systemTime)); }
      else { why := SysGetprio(Wrap32(a), io); }
    }

    /** sys_isr */
    method SysIsr(code: int, arg: Word, arg3: Word, io: int) returns (why: Option<Reason>)
      requires Valid() && Inv(Abs(), Abs().current) && current != NIL
      modifies this, ptable, pool, pool.km
      ensures WellFormed(old(Abs())) && Agrees(System(old(Abs()), code, arg, arg3, io), why, Abs())
      ensures why == None ==> Valid()
    {
      ghost var s := Abs();
      Entitled(s);
      var call, a: Word := code, arg;
      if code < 0 || code >= 10 { call, a := 0, S_BAD_SYSCALL + TWO_32; }
      SetArg(a);
      SystemParts(s, Abs(), code, arg, arg3, io, call, a);
      why := Serve(call, a, arg3, io);
    }

    /** The call the table holds for a valid code. */
    method Serve(code: int, a: Word, arg3: Word, io: int) returns (why: Option<Reason>)
      requires Valid() && WellFormed(Abs()) && ptable[current].state != Unused && 0 <= code < 10
      requires ptable[initPcb].parent == initPcb
      modifies this, ptable, pool, pool.km
      ensures WellFormed(old(Abs())) && Agrees(Served(old(Abs()), code, a, arg3, io), why, Abs())
      ensures why == None ==> Valid()
    {
      if code == 0 { why := SysExit(a); } else { why := OtherCall(code, a, arg3, io); }
    }

    /** One event, in a state that keeps the invariant. */
    method Event(e: ProcSpec.Event) returns (why: Option<Reason>)
      requires Valid() && Good(Abs())
      modifies this, ptable, pool, pool.km
      ensures Agrees(Step(old(Abs()), e), why, Abs())
      ensures why == None ==> Valid() && Good(Abs())
    {
      Entitled(Abs());
      StepGood(Abs(), e);
      match e
      case ClockTick => why := ClkIsr();
      case Trap(code, arg, arg3, io) => why := SysIsr(code, arg, arg3, io);
    }

    /** A whole run: the code and the state machine go through the same states and stop for the same reason. */
    method Run(es: seq<ProcSpec.Event>) returns (why: Option<Reason>)
      requires Valid() && Good(Abs())
      modifies this, ptable, pool, pool.km
      ensures Agrees(ProcSpec.Run(old(Abs()), es), why, Abs())
      ensures why == None ==> Valid() && Good(Abs())
    {
      ghost var s := Abs();
      var i := 0;
      while i < |es|
        invariant 0 <= i <= |es| && Valid() && Good(Abs())
        invariant ProcSpec.Run(s, es) == ProcSpec.Run(Abs(), es[i..])
      {
        ghost var s0 := Abs();
        why := Event(es[i]);
        RunTurn(s, es, i, s0, why, Abs());
        if why != None { return; }
        i := i + 1;
      }
      why := None;
    }

    // ---- main() ----------------------------------------------------------------------------------

    /** The statics as main() finds them, once km_init has run. */
    ghost predicate Fresh()
      reads this, ptable, pool, pool.km
    {
      && pool.Ready() && pool.pages == [] && pool.freeChain == []
      && ptable[..] == seq(ptable.Length, _ => CLEARED)
      && (forall q: nat :: q < Q.N_QUEUES ==> !pool.inUse[q] && Queue(q) == [])
      && current == NIL && initPcb == NIL && nextPid == FIRST_USER_PID && systemTime == 0
      && freeStacks == 0 && link == map[] && kstack == 0 && stacks == [] && hist == ProcBoot.NO_HISTORY
    }

    /** The queues allocated so far by pcb_init. */
    ghost predicate QueuesMade(n: nat)
      reads this, pool, pool.km
    {
      && pool.Ready() && |pool.inUse| == |pool.queues| == |pool.chains| == Q.N_QUEUES
      && (forall q: nat :: q < Q.N_QUEUES ==> pool.inUse[q] == (q < n) && Queue(q) == [])
      && (forall q: nat :: q < n && q < Q.N_QUEUES ==> pool.queues[q].order == OrderOf(q))
    }

    /** One que_alloc of pcb_init. */
    method MakeQueue(n: nat)
      requires QueuesMade(n) && n < USED_QUEUES
      modifies pool
      ensures QueuesMade(n + 1) && MemAbs() == old(MemAbs())
    {
      assert !pool.inUse[n];
      ghost var queues0 := pool.queues;
      var r := pool.QueAlloc(OrderOf(n));
      PoolShape(pool);
      assert r.value == n;
    }

    /** The queue part of pcb_init: ready 0 to 2, sleeping, zombie, blocked and sioread. */
    method MakeQueues()
      requires QueuesMade(0)
      modifies pool
      ensures QueuesMade(USED_QUEUES) && MemAbs() == old(MemAbs())
    {
      MakeQueue(0);
      MakeQueue(1);
      MakeQueue(2);
      MakeQueue(SLEEPING);
      MakeQueue(ZOMBIES);
      MakeQueue(5);
      MakeQueue(6);
    }

    /** que_init: the first page of nodes. */
    method QueInit() returns (ok: bool)
      requires Fresh()
      modifies pool, pool.km
      ensures ok == (GrantBase(old(pool.km.list), 1) != 0)
      ensures ok ==> QueuesMade(0) && MemAbs() == ProcBoot.PoolMem(old(pool.km.list))
    {
      ok := pool.QnodeAddPage();
      PoolShape(pool);
    }

    /** que_init and pcb_init */
    method InitQueues() returns (ok: bool)
      requires Fresh()
      modifies pool, pool.km
      ensures ok == (GrantBase(old(pool.km.list), 1) != 0)
      ensures ok ==> Valid() && Abs() == Prepared(ptable.Length, old(pool.km.list))
    {
      ok := QueInit();
      if !ok { return; }
      MakeQueues();
      AllMade();
    }

    lemma AllMade()
      requires QueuesMade(USED_QUEUES)
      ensures Valid() && Abs().ready == [[], [], []] && Abs().sleeping == [] && Abs().zombie == []
    {
      assert Queue(0) == [] && Queue(1) == [] && Queue(2) == [] && Queue(SLEEPING) == [] && Queue(ZOMBIES) == [];
    }

    /** stk_init: the kernel's own stack. */
    method StkInit() returns (ok: bool)
      requires Valid()
      modifies this`freeStacks, this`link, this`stacks, this`kstack, pool.km
      ensures Valid() && ok == (StackGranted(old(Abs()).mem) != 0)
      ensures ok ==> Abs() == old(Abs()).(mem := TakeStack(old(Abs()).mem).(kstack := StackGranted(old(Abs()).mem)))
    {
      var stk := StkAlloc();
      ok := stk != 0;
      if ok { SetKstack(stk); }
    }

    method SetKstack(stk: nat)
      requires Valid()
      modifies this`kstack
      ensures Valid() && Abs() == old(Abs()).(mem := old(Abs()).mem.(kstack := stk))
    {
      kstack := stk;
    }

    method SetInit(p: int)
      requires Valid()
      modifies this`initPcb
      ensures Valid() && Abs() == old(Abs()).(init := p)
    {
      initPcb := p;
    }

    /** The creation of init, up to schedule(). */
    method MakeInit() returns (why: Option<Reason>)
      requires Valid() && Abs().pt == seq(ptable.Length, _ => CLEARED)
      modifies this`freeStacks, this`link, this`stacks, this`initPcb, ptable, pool.km
      ensures Agrees(InitMade(old(Abs())), why, Abs())
      ensures why == None ==> Valid()
    {
      var p := PcbAlloc();
      if p == ptable.Length { return Some(BadPcb); }
      SetInit(p);
      var stk := StkAlloc();
      if stk == 0 { return Some(NoMemory); }
      SetPcb(p, ptable[p].(pid := PID_INIT, state := New, priority := 0, stack := stk, parent := p));
      why := None;
    }

    /** The rest of main(): schedule(init_pcb), dispatch(). */
    method StartInit() returns (why: Option<Reason>)
      requires Valid()
      modifies this`current, this`hist, ptable, pool, pool.km
      ensures Agrees(ThenDispatch(ProcSpec.Schedule(old(Abs()), old(Abs()).init)), why, Abs())
      ensures why == None ==> Valid()
    {
      why := Schedule(initPcb);
      if why != None { return; }
      why := Dispatch();
    }

    /** main(), from que_init to the first dispatch. */
    method Start() returns (why: Option<Reason>)
      requires Fresh() && Sorted(pool.km.list)
      modifies this, ptable, pool, pool.km
      ensures Agrees(ProcBoot.Boot(ptable.Length, old(pool.km.list)), why, Abs())
      ensures why == None ==> Valid() && ProcBoot.Sound(Abs())
    {
      BootParts(ptable.Length, pool.km.list);
      if ProcBoot.Boot(ptable.Length, pool.km.list).Next? { ProcBoot.BootSound(ptable.Length, pool.km.list); }
      var ok := InitQueues();
      if !ok { return Some(NoMemory); }
      ok := StkInit();
      if !ok { return Some(NoMemory); }
      why := MakeInit();
      if why != None { return; }
      why := StartInit();
    }
  }

  /** From the memory map to the first process: km_init, then main().  Without a single map entry the
      first allocation fails its assertion. */
  method PowerOn(n: nat, entries: int, regions: seq<Region>) returns (kernel: Option<Kernel>, why: Option<Reason>)
    requires entries <= |regions| && (entries >= 1 ==> ValidTable(regions[..entries]))
    ensures var free := if entries < 1 then [] else InitList(regions[..entries]);
      match why
      case Some(r) => ProcBoot.Boot(n, free) == Halted(r)
      case None => kernel.Some? && kernel.value.Valid() && ProcBoot.Boot(n, free) == Next(kernel.value.Abs())
                   && ProcBoot.Sound(kernel.value.Abs()) && ProcBoot.Reachable(kernel.value.Abs())
  {
    var km := new KMem.KMem();
    km.KmInit(entries, regions);
    if !km.initialized { return None, Some(NoMemory); }
    var k := new Kernel(n, km);
    why := k.Start();
    kernel := Some(k);
    if why == None {
      assert ProcSpec.Run(k.Abs(), []) == Next(k.Abs());
    }
  }
}
