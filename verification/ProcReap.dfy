/**
 Who has exited and who has been told.  The zombie queue law counts the entries that
 sys_wait leaves behind; the census accounts for every PID and every exit status.
 */
module ProcReap {
  import opened QueueSpec
  import opened Sequences
  import opened ProcSpec

  // ---- the zombie queue ------------------------------------------------------------

  function DeadAt(pt: seq<Pcb>, p: int): nat {
    if IsIn(pt, p, Zombie) then 1 else 0
  }

  /** Slot p occurs in the zombie queue once if it is a zombie, and once more for every
      zombie that sys_wait ever reaped out of that slot. */
  ghost predicate Queued(pt: seq<Pcb>, zombie: seq<int>, stale: multiset<int>, p: int) {
    Occ(zombie, p) == DeadAt(pt, p) + stale[p]
  }

  ghost predicate ZombieLaw(pt: seq<Pcb>, zombie: seq<int>, stale: multiset<int>) {
    forall p: int :: Queued(pt, zombie, stale, p)
  }

  /** Table changes in which nobody becomes or stops being a zombie. */
  lemma ZombieLawSame(pt: seq<Pcb>, pt': seq<Pcb>, zombie: seq<int>, stale: multiset<int>)
    requires ZombieLaw(pt, zombie, stale) && |pt'| == |pt|
    requires forall i :: 0 <= i < |pt| ==> (pt'[i].state == Zombie <==> pt[i].state == Zombie)
    ensures ZombieLaw(pt', zombie, stale)
  {
    forall p: int ensures Queued(pt', zombie, stale, p) { assert Queued(pt, zombie, stale, p); }
  }

  /** pcb_zombify() */
  lemma ZombieLawAdd(pt: seq<Pcb>, zombie: seq<int>, stale: multiset<int>, x: int, c: Pcb)
    requires ZombieLaw(pt, zombie, stale) && Slot(pt, x) && !IsIn(pt, x, Zombie) && c.state == Zombie
    ensures ZombieLaw(pt[x := c], zombie + [x], stale)
  {
    var pt' := pt[x := c];
    forall p: int ensures Queued(pt', zombie + [x], stale, p) {
      assert Queued(pt, zombie, stale, p);
      InsertOcc(zombie, x, Fifo, [], p);
    }
  }

  /** sys_exit() takes the zombie it hands to init out of the queue ... */
  lemma ZombieLawDequeue(pt: seq<Pcb>, zombie: seq<int>, stale: multiset<int>, x: int, c: Pcb)
    requires ZombieLaw(pt, zombie, stale) && IsIn(pt, x, Zombie) && c.state != Zombie
    ensures x in zombie
    ensures ZombieLaw(pt[x := c], RemoveFirst(zombie, x), stale)
  {
    var pt' := pt[x := c];
    assert Queued(pt, zombie, stale, x);
    forall p: int ensures Queued(pt', RemoveFirst(zombie, x), stale, p) {
      assert Queued(pt, zombie, stale, p);
      RemoveFirstOcc(zombie, x, p);
    }
  }

  /** ... and sys_wait() does not. */
  lemma ZombieLawLeave(pt: seq<Pcb>, zombie: seq<int>, stale: multiset<int>, x: int, c: Pcb)
    requires ZombieLaw(pt, zombie, stale) && IsIn(pt, x, Zombie) && c.state != Zombie
    ensures ZombieLaw(pt[x := c], zombie, stale + multiset{x})
  {
    var pt' := pt[x := c];
    forall p: int ensures Queued(pt', zombie, stale + multiset{x}, p) { assert Queued(pt, zombie, stale, p); }
  }

  ghost function Zombies(pt: seq<Pcb>): set<int> {
    set p | 0 <= p < |pt| && pt[p].state == Zombie
  }

  /** The length of the zombie queue: the zombies there are, plus every reap by sys_wait. */
  lemma ZombieQueueLength(pt: seq<Pcb>, zombie: seq<int>, stale: multiset<int>)
    requires ZombieLaw(pt, zombie, stale)
    ensures |zombie| == |Zombies(pt)| + |stale|
  {
    forall p: int ensures multiset(zombie)[p] == (multiset(Zombies(pt)) + stale)[p] {
      assert Queued(pt, zombie, stale, p);
    }
    assert multiset(zombie) == multiset(Zombies(pt)) + stale;
  }

  // ---- the census -------------------------------------------------------------------

  /** What a PCB contributes: a process that can still exit, or an exit not yet reported. */
  datatype Mark = Alive(pid: int) | Dead(what: Exited)

  function MarkOf(c: Pcb): multiset<Mark> {
    if c.state == Unused then multiset{}
    else if c.state == Zombie then multiset{Dead(Exited(c.pid, c.status))}
    else multiset{Alive(c.pid)}
  }

  function Census(pt: seq<Pcb>): multiset<Mark> {
    if pt == [] then multiset{} else Census(pt[..|pt| - 1]) + MarkOf(pt[|pt| - 1])
  }

  lemma {:induction false} CensusUpdate(pt: seq<Pcb>, x: int, c: Pcb)
    requires Slot(pt, x)
    ensures MarkOf(pt[x]) <= Census(pt)
    ensures Census(pt[x := c]) == Census(pt) - MarkOf(pt[x]) + MarkOf(c)
  {
    var n := |pt| - 1;
    if x == n {
      assert pt[x := c][..n] == pt[..n];
      Replace(Census(pt[..n]), MarkOf(pt[n]), MarkOf(c));
    } else {
      assert pt[x := c][..n] == pt[..n][x := c];
      CensusUpdate(pt[..n], x, c);
      Regroup(Census(pt[..n]), MarkOf(pt[x]), MarkOf(c), MarkOf(pt[n]));
    }
  }

  lemma {:induction false} CensusSame(pt: seq<Pcb>, pt': seq<Pcb>)
    requires |pt'| == |pt| && forall i :: 0 <= i < |pt| ==> MarkOf(pt'[i]) == MarkOf(pt[i])
    ensures Census(pt') == Census(pt)
  {
    if pt != [] { CensusSame(pt[..|pt| - 1], pt'[..|pt| - 1]); }
  }

  function Delivered(log: seq<Delivery>): multiset<Exited> {
    if log == [] then multiset{} else Delivered(log[..|log| - 1]) + multiset{log[|log| - 1].what}
  }

  function ExitPids(exits: seq<Exited>): multiset<int> {
    if exits == [] then multiset{} else ExitPids(exits[..|exits| - 1]) + multiset{exits[|exits| - 1].pid}
  }

  /** PIDs handed out so far: init's, and one for every fork. */
  function Born(forks: seq<Fork>): multiset<int> {
    if forks == [] then multiset{PID_INIT} else Born(forks[..|forks| - 1]) + multiset{forks[|forks| - 1].child}
  }

  /** Every exit is still a zombie with its status or has been delivered, exactly once. */
  ghost predicate Reported(census: multiset<Mark>, hist: History, e: Exited) {
    multiset(hist.exits)[e] == census[Dead(e)] + Delivered(hist.log)[e]
  }

  /** Every PID ever given out belongs to a living process or has exited, exactly once. */
  ghost predicate Counted(census: multiset<Mark>, hist: History, pid: int) {
    Born(hist.forks)[pid] == census[Alive(pid)] + ExitPids(hist.exits)[pid]
  }

  ghost predicate Accounted(pt: seq<Pcb>, hist: History) {
    && (forall e: Exited :: Reported(Census(pt), hist, e))
    && (forall pid: int :: Counted(Census(pt), hist, pid))
  }

  lemma AccountedSame(pt: seq<Pcb>, pt': seq<Pcb>, hist: History)
    requires Accounted(pt, hist) && |pt'| == |pt|
    requires forall i :: 0 <= i < |pt| ==> MarkOf(pt'[i]) == MarkOf(pt[i])
    ensures Accounted(pt', hist)
  {
    CensusSame(pt, pt');
  }

  lemma AccountedOne(pt: seq<Pcb>, x: int, c: Pcb, hist: History)
    requires Accounted(pt, hist) && Slot(pt, x) && MarkOf(c) == MarkOf(pt[x])
    ensures Accounted(pt[x := c], hist)
  {
    CensusSame(pt, pt[x := c]);
  }

  lemma ForkCounted(census: multiset<Mark>, hist: History, f: Fork, hist': History)
    requires forall pid: int :: Counted(census, hist, pid)
    requires hist' == hist.(forks := hist.forks + [f])
    ensures var census' := census + multiset{Alive(f.child)}; forall pid: int :: Counted(census', hist', pid)
  {
    var census' := census + multiset{Alive(f.child)};
    assert hist'.forks[..|hist.forks|] == hist.forks;
    forall pid: int ensures Counted(census', hist', pid) { assert Counted(census, hist, pid); }
  }

  /** A fork. */
  lemma AccountedFork(pt: seq<Pcb>, n: int, c: Pcb, hist: History, f: Fork)
    requires Accounted(pt, hist) && Slot(pt, n) && pt[n].state == Unused
    requires c.state != Unused && c.state != Zombie && f.child == c.pid
    ensures Accounted(pt[n := c], hist.(forks := hist.forks + [f]))
  {
    var hist' := hist.(forks := hist.forks + [f]);
    CensusUpdate(pt, n, c);
    var census' := Census(pt[n := c]);
    assert census' == Census(pt) + multiset{Alive(f.child)};
    ForkCounted(Census(pt), hist, f, hist');
    forall e: Exited ensures Reported(census', hist', e) { assert Reported(Census(pt), hist, e); }
  }

  lemma ExitCounted(census: multiset<Mark>, hist: History, e: Exited, census': multiset<Mark>, hist': History)
    requires forall pid: int :: Counted(census, hist, pid)
    requires Alive(e.pid) in census && census' == census - multiset{Alive(e.pid)} + multiset{Dead(e)}
    requires hist' == hist.(exits := hist.exits + [e])
    ensures forall pid: int :: Counted(census', hist', pid)
  {
    assert hist'.exits[..|hist.exits|] == hist.exits;
    forall pid: int ensures Counted(census', hist', pid) { assert Counted(census, hist, pid); }
  }

  lemma ExitReported(census: multiset<Mark>, hist: History, e: Exited, census': multiset<Mark>, hist': History)
    requires forall x: Exited :: Reported(census, hist, x)
    requires Alive(e.pid) in census && census' == census - multiset{Alive(e.pid)} + multiset{Dead(e)}
    requires hist' == hist.(exits := hist.exits + [e])
    ensures forall x: Exited :: Reported(census', hist', x)
  {
    forall x: Exited ensures Reported(census', hist', x) { assert Reported(census, hist, x); }
  }

  /** An exit that leaves a zombie. */
  lemma AccountedZombie(pt: seq<Pcb>, x: int, c: Pcb, hist: History)
    requires Accounted(pt, hist) && Slot(pt, x) && pt[x].state != Unused && pt[x].state != Zombie
    requires c == pt[x].(state := Zombie)
    ensures Accounted(pt[x := c], hist.(exits := hist.exits + [Exited(c.pid, c.status)]))
  {
    var e := Exited(c.pid, c.status);
    var hist' := hist.(exits := hist.exits + [e]);
    CensusUpdate(pt, x, c);
    assert Alive(e.pid) in MarkOf(pt[x]);
    ExitCounted(Census(pt), hist, e, Census(pt[x := c]), hist');
    ExitReported(Census(pt), hist, e, Census(pt[x := c]), hist');
  }

  /** A zombie's status is delivered and its slot freed. */
  lemma AccountedReap(pt: seq<Pcb>, z: int, c: Pcb, hist: History, to: int)
    requires Accounted(pt, hist) && IsIn(pt, z, Zombie) && c.state == Unused
    ensures Accounted(pt[z := c], hist.(log := hist.log + [Delivery(Exited(pt[z].pid, pt[z].status), to)]))
  {
    var d := Delivery(Exited(pt[z].pid, pt[z].status), to);
    var hist' := hist.(log := hist.log + [d]);
    CensusUpdate(pt, z, c);
    var census' := Census(pt[z := c]);
    assert Dead(d.what) in MarkOf(pt[z]);
    ReapReported(Census(pt), hist, d, census');
    ReapCounted(Census(pt), hist, d, census');
  }

  lemma ReapReported(census: multiset<Mark>, hist: History, d: Delivery, census': multiset<Mark>)
    requires forall e: Exited :: Reported(census, hist, e)
    requires Dead(d.what) in census && census' == census - multiset{Dead(d.what)}
    ensures forall e: Exited :: Reported(census', hist.(log := hist.log + [d]), e)
  {
    var hist' := hist.(log := hist.log + [d]);
    assert hist'.log[..|hist.log|] == hist.log;
    forall e: Exited ensures Reported(census', hist', e) { assert Reported(census, hist, e); }
  }

  lemma ReapCounted(census: multiset<Mark>, hist: History, d: Delivery, census': multiset<Mark>)
    requires forall pid: int :: Counted(census, hist, pid)
    requires census' == census - multiset{Dead(d.what)}
    ensures forall pid: int :: Counted(census', hist.(log := hist.log + [d]), pid)
  {
    var hist' := hist.(log := hist.log + [d]);
    forall pid: int ensures Counted(census', hist', pid) { assert Counted(census, hist, pid); }
  }

  /** An exit reported at once to a waiting parent. */
  lemma AccountedDirect(pt: seq<Pcb>, x: int, c: Pcb, hist: History, to: int)
    requires Accounted(pt, hist) && Slot(pt, x) && pt[x].state != Unused && pt[x].state != Zombie
    requires c.state == Unused
    ensures var e := Exited(pt[x].pid, pt[x].status);
      Accounted(pt[x := c], hist.(exits := hist.exits + [e], log := hist.log + [Delivery(e, to)]))
  {
    var z := pt[x].(state := Zombie);
    AccountedZombie(pt, x, z, hist);
    var pt1 := pt[x := z];
    var e := Exited(pt[x].pid, pt[x].status);
    AccountedReap(pt1, x, c, hist.(exits := hist.exits + [e]), to);
    assert pt1[x := c] == pt[x := c];
  }
}
