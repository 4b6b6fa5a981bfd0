/**
 The process core as a state machine: what each system call and each clock interrupt
 does to the process table, the queues, the current process and memory.  One call or
 one tick is one step.  A failed assertion or a kpanic ends the run: no step follows.
 Kernel.dfy proves the looping, mutating code against these functions.

 PCBs are named by their index in the table; NIL is the null pointer.
 */
module ProcSpec {
  import opened Wrappers
  import opened QueueSpec
  import opened PageList

  const Q_STD: nat := 3
  const N_PRIOS: nat := 3
  const PRIO_INHERIT: nat := 0x80
  const PID_INIT: int := 1
  const FIRST_USER_PID: int := 2
  const STACK_PAGES: nat := 2
  const S_ERROR: int := -1
  const S_BAD_SYSCALL: int := -3
  const S_NO_CHILD: int := -4
  const S_BAD_CHAN: int := -5

  datatype State = Unused | New | Ready | Running | Sleeping | Blocked | Waiting | Zombie

  /** pcb_t, with the parts of the saved user context the kernel looks at: `arg` is the first
      argument of the call in progress, `ret` the saved EAX, and `got` the last status stored
      through the pointer a wait() call supplied. */
  datatype Pcb = Pcb(state: State, parent: int, wakeup: nat, status: int, pid: int, priority: nat,
                     quantum: nat, stack: nat, arg: nat, ret: int, got: Option<int>)

  const CLEARED: Pcb := Pcb(Unused, NIL, 0, 0, 0, 0, 0, 0, 0, 0, None)

  /** Page memory as the process core uses it: the free page list, the qnode pool (free nodes
      and pages bought for it), the kernel stack, and the free stack list, whose links are the
      first words of the stacks themselves. */
  datatype Mem = Mem(free: seq<Block>, qfree: nat, qpages: seq<nat>,
                     kstack: nat, stacks: seq<nat>, stkHead: nat, link: map<nat, nat>)

  datatype Exited = Exited(pid: int, status: int)
  datatype Delivery = Delivery(what: Exited, to: int)
  datatype Fork = Fork(child: int, parent: int)

  /** What has happened so far; the kernel itself keeps none of this. */
  datatype History = History(forks: seq<Fork>, exits: seq<Exited>, log: seq<Delivery>,
                             stale: multiset<int>, dispatches: nat)

  datatype St = St(pt: seq<Pcb>, ready: seq<seq<int>>, sleeping: seq<int>, zombie: seq<int>,
                   current: int, init: int, nextPid: int, time: nat, mem: Mem, hist: History)

  /** Why a run ended. */
  datatype Reason =
    InitExits | BadPcb | NoParent | BadPriority | NobodyReady | NoMemory | LostZombie | ReadBlocks | BadPid

  datatype Outcome = Halted(why: Reason) | Next(s: St) {
    predicate IsFailure() { Halted? }
    function PropagateFailure(): Outcome requires Halted? { this }
    function Extract(): St requires Next? { s }
  }

  /** A 32-bit word of user or kernel memory. */
  type Word = x: nat | x < TWO_32

  /** The table has this slot. */
  predicate Slot(pt: seq<Pcb>, p: int) { 0 <= p < |pt| }

  predicate Live(pt: seq<Pcb>, p: int) { Slot(pt, p) && pt[p].state != Unused }

  predicate IsIn(pt: seq<Pcb>, p: int, st: State) { Slot(pt, p) && pt[p].state == st }

  /** c is a child of p, as pcb_find_child_of and sys_wait see it. */
  predicate ChildOf(pt: seq<Pcb>, c: int, p: int) { Live(pt, c) && c != p && pt[c].parent == p }

  /** The table and the scheduling levels keep their size, and init stays where it is. */
  predicate SameShape(s: St, s': St) {
    |s'.pt| == |s.pt| && |s'.ready| == |s.ready| && s'.init == s.init
  }

  function Wakeups(pt: seq<Pcb>): (w: seq<nat>)
    ensures |w| == |pt| && forall i :: 0 <= i < |pt| ==> w[i] == pt[i].wakeup
  {
    seq(|pt|, i requires 0 <= i < |pt| => pt[i].wakeup)
  }

  // ---- memory --------------------------------------------------------------------

  /** qnode_alloc: buys a page for the pool when it is empty. */
  function TakeQnode(m: Mem): Option<Mem> {
    if m.qfree > 0 then Some(m.(qfree := m.qfree - 1))
    else if GrantBase(m.free, 1) == 0 then None
    else Some(m.(free := AllocList(m.free, 1), qfree := QNODES_PER_PAGE - 1,
                 qpages := m.qpages + [GrantBase(m.free, 1)]))
  }

  function FreeQnode(m: Mem): Mem { m.(qfree := m.qfree + 1) }

  /** The word at the bottom of a stack: the link of a free stack, 0 once cleared. */
  function LinkIn(link: map<nat, nat>, stk: nat): nat { if stk in link then link[stk] else 0 }

  /** stk_alloc: the stack granted (0 for none) and memory afterwards. */
  function StackGranted(m: Mem): nat {
    if m.stkHead != 0 then m.stkHead else GrantBase(m.free, STACK_PAGES)
  }

  function TakeStack(m: Mem): Mem {
    if m.stkHead != 0 then
      m.(stkHead := LinkIn(m.link, m.stkHead), link := m.link[m.stkHead := 0])
    else if GrantBase(m.free, STACK_PAGES) == 0 then m
    else
      var b := GrantBase(m.free, STACK_PAGES);
      m.(free := AllocList(m.free, STACK_PAGES), stacks := m.stacks + [b], link := m.link[b := 0])
  }

  /** stk_free */
  function GiveStack(m: Mem, stk: nat): Mem {
    m.(stkHead := stk, link := m.link[stk := m.stkHead])
  }

  // ---- scheduler -----------------------------------------------------------------

  /** schedule */
  function Schedule(s: St, p: int): (r: Outcome)
    requires |s.ready| == N_PRIOS
    ensures r.Next? ==> SameShape(s, r.s) && r.s.current == s.current
  {
    if !Slot(s.pt, p) then Halted(BadPcb)
    else if s.pt[p].priority >= N_PRIOS then Halted(BadPriority) else
    match TakeQnode(s.mem)
    case None => Halted(NoMemory)
    case Some(m) =>
      var prio := s.pt[p].priority;
      Next(s.(ready := s.ready[prio := s.ready[prio] + [p]], pt := s.pt[p := s.pt[p].(state := Ready)], mem := m))
  }

  /** The highest non-empty priority level, or N_PRIOS. */
  function TopLevel(ready: seq<seq<int>>): (i: nat)
    requires |ready| == N_PRIOS
    ensures i <= N_PRIOS && (i < N_PRIOS ==> ready[i] != [])
    ensures forall j :: 0 <= j < i ==> ready[j] == []
  {
    if ready[0] != [] then 0 else if ready[1] != [] then 1 else if ready[2] != [] then 2 else 3
  }

  /** dispatch */
  function Dispatch(s: St): (r: Outcome)
    requires |s.ready| == N_PRIOS
    ensures r.Next? ==> SameShape(s, r.s)
  {
    var i := TopLevel(s.ready);
    if i == N_PRIOS then Halted(NobodyReady) else
    var p := s.ready[i][0];
    Next(s.(ready := s.ready[i := s.ready[i][1..]], current := p, mem := FreeQnode(s.mem),
            pt := if Slot(s.pt, p) then s.pt[p := s.pt[p].(state := Running, quantum := Q_STD)] else s.pt,
            hist := s.hist.(dispatches := s.hist.dispatches + 1)))
  }

  // ---- termination ---------------------------------------------------------------

  /** pcb_cleanup */
  function Cleanup(s: St, p: int): St
    requires Slot(s.pt, p)
  {
    var s1 := if s.pt[p].stack != 0 then s.(mem := GiveStack(s.mem, s.pt[p].stack)) else s;
    s1.(pt := s1.pt[p := s1.pt[p].(stack := 0, state := Unused)])
  }

  /** pcb_zombify */
  function Zombify(s: St, p: int): Outcome
    requires Slot(s.pt, p)
  {
    match TakeQnode(s.mem)
    case None => Halted(NoMemory)
    case Some(m) =>
      Next(s.(pt := s.pt[p := s.pt[p].(state := Zombie)], zombie := s.zombie + [p], mem := m))
  }

  /** status_return: the parent's wait() returns the child's PID, and its status through the
      pointer if there was one. */
  function StatusReturn(s: St, parent: int, child: int): St
    requires Slot(s.pt, parent) && Slot(s.pt, child)
  {
    var c := s.pt[child];
    var p := s.pt[parent];
    var p' := p.(ret := c.pid, got := if p.arg != 0 then Some(c.status) else p.got);
    s.(pt := s.pt[parent := p'],
       hist := s.hist.(log := s.hist.log + [Delivery(Exited(c.pid, c.status), p.pid)]))
  }

  /** Every child of p, dead or alive, becomes a child of init. */
  function Adopt(pt: seq<Pcb>, p: int, init: int): (r: seq<Pcb>)
    ensures |r| == |pt|
    ensures forall i :: 0 <= i < |pt| ==> r[i] == if ChildOf(pt, i, p) then pt[i].(parent := init) else pt[i]
  {
    seq(|pt|, i requires 0 <= i < |pt| => if ChildOf(pt, i, p) then pt[i].(parent := init) else pt[i])
  }

  /** The last dead child of p in table order, or NIL. */
  function LastDeadChild(pt: seq<Pcb>, p: int, n: nat): (z: int)
    requires n <= |pt|
    ensures z == NIL || (0 <= z < n && ChildOf(pt, z, p) && pt[z].state == Zombie)
    ensures forall i :: z < i < n ==> !(ChildOf(pt, i, p) && 0 <= i && pt[i].state == Zombie)
  {
    if n == 0 then NIL
    else if ChildOf(pt, n - 1, p) && pt[n - 1].state == Zombie then n - 1
    else LastDeadChild(pt, p, n - 1)
  }

  /** Hand one inherited zombie to a waiting init. */
  function WakeInit(s: St, z: int): (r: Outcome)
    requires Slot(s.pt, s.init) && Slot(s.pt, z) && |s.ready| == N_PRIOS
    ensures r.Next? ==> SameShape(s, r.s) && r.s.current == s.current
  {
    if z !in s.zombie then Halted(LostZombie) else
    var s1 := s.(zombie := RemoveFirst(s.zombie, z), mem := FreeQnode(s.mem));
    var s2 :- Schedule(StatusReturn(s1, s.init, z), s.init);
    Next(Cleanup(s2, z))
  }

  /** The last part of sys_exit: tell the parent now, or leave a zombie. */
  function Finish(s: St, p: int, parent: int): (r: Outcome)
    requires Slot(s.pt, p) && Slot(s.pt, parent) && |s.ready| == N_PRIOS
    ensures r.Next? ==> SameShape(s, r.s)
  {
    var s0 := s.(hist := s.hist.(exits := s.hist.exits + [Exited(s.pt[p].pid, s.pt[p].status)]));
    if s.pt[parent].state == Waiting then
      var s1 :- Schedule(StatusReturn(s0, parent, p), parent);
      Next(Cleanup(s1, p))
    else Zombify(s0, p)
  }

  /** sys_exit */
  function Exit(s: St, status: Word): Outcome
    requires Slot(s.pt, s.current) && Slot(s.pt, s.init) && |s.ready| == N_PRIOS
  {
    var p := s.current;
    var parent := s.pt[p].parent;
    if !Live(s.pt, parent) then Halted(NoParent)
    else if parent == p then Halted(InitExits)
    else
      var st := Wrap32(status);
      var pt1 := s.pt[p := s.pt[p].(status := st)];
      var z := LastDeadChild(pt1, p, |pt1|);
      var s1 := s.(pt := Adopt(pt1, p, s.init));
      var s2 :- if z != NIL && s1.pt[s.init].state == Waiting then WakeInit(s1, z) else Next(s1);
      var s3 :- Finish(s2, p, parent);
      Dispatch(s3)
  }

  // ---- wait ------------------------------------------------------------------------

  /** The first dead child of p at or after slot i, or NIL. */
  function FirstDeadChild(pt: seq<Pcb>, p: int, i: nat): (z: int)
    requires i <= |pt|
    ensures z == NIL || (i <= z < |pt| && ChildOf(pt, z, p) && pt[z].state == Zombie)
    ensures forall j :: i <= j < |pt| && (z == NIL || j < z) ==> !(ChildOf(pt, j, p) && pt[j].state == Zombie)
    decreases |pt| - i
  {
    if i == |pt| then NIL
    else if ChildOf(pt, i, p) && pt[i].state == Zombie then i
    else FirstDeadChild(pt, p, i + 1)
  }

  /** sys_wait */
  function Wait(s: St, ptr: Word): Outcome
    requires Slot(s.pt, s.current) && |s.ready| == N_PRIOS
  {
    var p := s.current;
    var z := FirstDeadChild(s.pt, p, 0);
    if z != NIL then
      var s1 := Cleanup(StatusReturn(s, p, z), z);
      Next(s1.(hist := s1.hist.(stale := s1.hist.stale + multiset{z})))
    else if exists c :: 0 <= c < |s.pt| && ChildOf(s.pt, c, p) then
      Dispatch(s.(pt := s.pt[p := s.pt[p].(state := Waiting)]))
    else Next(s.(pt := s.pt[p := s.pt[p].(ret := S_NO_CHILD)]))
  }

  // ---- fork, exec, sleep -------------------------------------------------------------

  /** pcb_alloc: the first unused slot at or after i, or |pt|. */
  function FirstUnused(pt: seq<Pcb>, i: nat): (p: nat)
    requires i <= |pt|
    ensures i <= p <= |pt|
    ensures p < |pt| ==> pt[p].state == Unused
    ensures forall j :: i <= j < p ==> pt[j].state != Unused
    decreases |pt| - i
  {
    if i == |pt| || pt[i].state == Unused then i else FirstUnused(pt, i + 1)
  }

  function Returns(s: St, value: int): St
    requires Slot(s.pt, s.current)
  {
    s.(pt := s.pt[s.current := s.pt[s.current].(ret := value)])
  }

  /** The child's PCB.  prio_t is one byte wide. */
  function ChildPcb(s: St, stk: nat, prioArg: Word): Pcb
    requires Slot(s.pt, s.current)
  {
    var asked := prioArg % 0x100;
    var p := s.pt[s.current];
    CLEARED.(state := New, stack := stk, parent := s.current, pid := s.nextPid, arg := p.arg,
             priority := if asked == PRIO_INHERIT then p.priority else asked)
  }

  /** What fork() returns to the parent.  The child's context lies as far from the parent's as its stack
      does, so a child that is granted the stack pcb->stack names shares the context itself, and its 0
      is what the parent gets. */
  function ForkReturn(s: St): int
    requires Slot(s.pt, s.current)
  {
    if StackGranted(s.mem) == s.pt[s.current].stack then 0 else s.nextPid
  }

  /** The child in slot n, with the next PID and the stack granted. */
  function WithChild(s: St, n: int, prioArg: Word): St
    requires Slot(s.pt, s.current) && Slot(s.pt, n)
  {
    s.(pt := s.pt[n := ChildPcb(s, StackGranted(s.mem), prioArg)], nextPid := Wrap32(s.nextPid + 1),
       mem := TakeStack(s.mem), hist := s.hist.(forks := s.hist.forks + [Fork(s.nextPid, s.pt[s.current].pid)]))
  }

  /** sys_fork.  The child's saved context is a copy of its parent's. */
  function DoFork(s: St, prioArg: Word): Outcome
    requires Slot(s.pt, s.current) && |s.ready| == N_PRIOS
  {
    var n := FirstUnused(s.pt, 0);
    if n == |s.pt| || StackGranted(s.mem) == 0 then Next(Returns(s, S_ERROR)) else
    Schedule(WithChild(Returns(s, ForkReturn(s)), n, prioArg), n)
  }

  /** sys_exec: the process moves to a new stack and the old one is freed, but pcb->stack keeps
      naming the old one. */
  function Exec(s: St): St
    requires Slot(s.pt, s.current)
  {
    if StackGranted(s.mem) == 0 then Returns(s, S_ERROR)
    else Returns(s.(mem := GiveStack(TakeStack(s.mem), s.pt[s.current].stack)), 0)
  }

  /** sys_sleep */
  function Sleep(s: St, n: Word): Outcome
    requires Slot(s.pt, s.current) && |s.ready| == N_PRIOS
  {
    var p := s.current;
    if n == 0 then
      var s1 :- Schedule(s, p);
      Dispatch(s1)
    else
      var pt := s.pt[p := s.pt[p].(state := Sleeping, wakeup := (s.time + n) % TWO_32)];
      match TakeQnode(s.mem)
      case None => Halted(NoMemory)
      case Some(m) => Dispatch(s.(pt := pt, sleeping := Insert(s.sleeping, p, ByWakeup, Wakeups(pt)), mem := m))
  }

  // ---- the other calls -----------------------------------------------------------------

  /** sys_read.  `io` is what the device answers: the number of characters available. */
  function Read(s: St, chan: Word, len: Word, io: int): Outcome
    requires Slot(s.pt, s.current)
  {
    if len == 0 then Next(Returns(s, 0))
    else if chan == 0 then Next(Returns(s, if io < 1 then 0 else io))
    else if chan == 1 then (if io < 1 then Halted(ReadBlocks) else Next(Returns(s, io)))
    else Next(Returns(s, S_BAD_CHAN))
  }

  /** pcb_find_pid: the first live slot with this PID at or after i, or |pt|. */
  function FindPid(pt: seq<Pcb>, pid: int, i: nat): (p: nat)
    requires i <= |pt|
    ensures i <= p <= |pt|
    decreases |pt| - i
  {
    if i == |pt| || (pt[i].pid == pid && pt[i].state != Unused) then i else FindPid(pt, pid, i + 1)
  }

  /** sys_getprio.  An unknown PID makes it read through a null pointer: `io` is what it finds. */
  function GetPrio(s: St, pid: int, io: int): Outcome
    requires Slot(s.pt, s.current)
  {
    if pid == 0 || pid == s.pt[s.current].pid then Next(Returns(s, s.pt[s.current].priority))
    else if pid < FIRST_USER_PID then Halted(BadPid)
    else
      var q := FindPid(s.pt, pid, 0);
      Next(Returns(s, if q < |s.pt| then s.pt[q].priority else io))
  }

  /** clk_isr's wake loop: everyone at the head of the sleep queue whose time has come. */
  function WakeAll(s: St): (r: Outcome)
    requires |s.ready| == N_PRIOS
    ensures r.Next? ==> SameShape(s, r.s) && r.s.current == s.current
    decreases |s.sleeping|
  {
    if s.sleeping == [] || KeyOf(Wakeups(s.pt), s.sleeping[0]) > s.time then Next(s)
    else
      var s1 :- Schedule(s.(sleeping := s.sleeping[1..], mem := FreeQnode(s.mem)), s.sleeping[0]);
      WakeAll(s1)
  }

  /** clk_isr */
  function Tick(s: St): Outcome
    requires Slot(s.pt, s.current) && |s.ready| == N_PRIOS
  {
    var s1 :- WakeAll(s.(time := (s.time + 1) % TWO_32));
    Expire(s1)
  }

  function Expire(s: St): Outcome
    requires Slot(s.pt, s.current) && |s.ready| == N_PRIOS
  {
    var p := s.current;
    var q := (s.pt[p].quantum - 1) % 0x100;
    var s1 := s.(pt := s.pt[p := s.pt[p].(quantum := q)]);
    if q < 1 then
      var s2 :- Schedule(s1, p);
      Dispatch(s2)
    else Next(s1)
  }

  // ---- steps and runs ------------------------------------------------------------------

  /** What can happen between two states: a clock interrupt, or a trap by the current process
      with a call code, its first and third arguments, and what a device would answer. */
  datatype Event = ClockTick | Trap(code: int, arg: Word, arg3: Word, io: int)

  predicate WellFormed(s: St) {
    Slot(s.pt, s.current) && Slot(s.pt, s.init) && |s.ready| == N_PRIOS
  }

  /** sys_isr: an invalid code becomes exit(S_BAD_SYSCALL). */
  function System(s: St, code: int, arg: Word, arg3: Word, io: int): Outcome
    requires WellFormed(s)
  {
    var bad := code < 0 || code >= 10;
    var a: Word := if bad then S_BAD_SYSCALL + TWO_32 else arg;
    var s1 := s.(pt := s.pt[s.current := s.pt[s.current].(arg := a)]);
    if bad || code == 0 then Exit(s1, a)
    else if code == 1 then Wait(s1, a)
    else if code == 2 then DoFork(s1, a)
    else if code == 3 then Next(Exec(s1))
    else if code == 4 then Read(s1, a, arg3, io)
    else if code == 5 then Next(Returns(s1, if a < 2 then Wrap32(arg3) else S_BAD_CHAN))
    else if code == 6 then Sleep(s1, a)
    else if code == 7 then Next(Returns(s1, s1.pt[s1.current].pid))
    else if code == 8 then Next(Returns(s1, Wrap32(s1.time)))
    else GetPrio(s1, Wrap32(a), io)
  }

  function Step(s: St, e: Event): Outcome {
    if !WellFormed(s) then Halted(BadPcb) else
    match e
    case ClockTick => Tick(s)
    case Trap(code, arg, arg3, io) => System(s, code, arg, arg3, io)
  }

  /** The events of a run, in order; it ends early if a step halts. */
  function Run(s: St, es: seq<Event>): Outcome
    decreases |es|
  {
    if es == [] then Next(s) else
    var s1 :- Step(s, es[0]);
    Run(s1, es[1..])
  }
}
