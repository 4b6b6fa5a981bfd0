/**
 Sleepers that are due together.  Of two with the same wakeup time and level the one that
 went to sleep first stays ahead: in the sleep queue until they are due, and then in the
 ready queue of their level.
 */
module ProcTies {
  import opened Wrappers
  import opened QueueSpec
  import opened ProcSpec
  import opened ProcSched
  import opened ProcInv
  import opened ProcSteps
  import opened ProcFair
  import opened ProcSleep

  ghost predicate At(q: seq<int>, i: int, a: int) { 0 <= i < |q| && q[i] == a }

  /** a stands before b in the queue. */
  ghost predicate Ahead(q: seq<int>, a: int, b: int) {
    exists i, j :: i < j && At(q, i, a) && At(q, j, b)
  }

  /** From place k on, everyone in the queue is due later than x. */
  ghost predicate LaterFrom(q: seq<int>, k: nat, x: int, keys: seq<nat>) {
    forall i :: k <= i < |q| ==> KeyOf(keys, x) < KeyOf(keys, q[i])
  }

  lemma AheadInsert(q: seq<int>, t: seq<int>, k: nat, x: int, a: int, b: int)
    requires Ahead(q, a, b) && k <= |q| && t == q[..k] + [x] + q[k..]
    ensures Ahead(t, a, b)
  {
    var i, j :| i < j && At(q, i, a) && At(q, j, b);
    assert At(t, if i < k then i else i + 1, a) && At(t, if j < k then j else j + 1, b);
  }

  /** What is inserted stands behind everything that is due no later. */
  lemma AheadNew(q: seq<int>, t: seq<int>, k: nat, x: int, a: int, keys: seq<nat>)
    requires a in q && k <= |q| && t == q[..k] + [x] + q[k..] && KeyOf(keys, a) <= KeyOf(keys, x)
    requires LaterFrom(q, k, x, keys)
    ensures Ahead(t, a, x)
  {
    var i :| 0 <= i < |q| && q[i] == a;
    assert At(t, i, a) && At(t, k, x);
  }

  lemma AheadDrop(q: seq<int>, k: nat, a: int, b: int)
    requires Ahead(q, a, b) && k <= |q| && forall i :: 0 <= i < k ==> q[i] != a
    ensures Ahead(q[k..], a, b)
  {
    var i, j :| i < j && At(q, i, a) && At(q, j, b);
    assert At(q[k..], i - k, a) && At(q[k..], j - k, b);
  }

  lemma AheadTake(q: seq<int>, k: nat, a: int, b: int)
    requires Ahead(q, a, b) && k <= |q| && forall i :: k <= i < |q| ==> q[i] != b
    ensures Ahead(q[..k], a, b)
  {
    var i, j :| i < j && At(q, i, a) && At(q, j, b);
    assert At(q[..k], i, a) && At(q[..k], j, b);
  }

  lemma AheadBehind(q: seq<int>, t: seq<int>, a: int, b: int)
    requires Ahead(t, a, b)
    ensures Ahead(q + t, a, b)
  {
    var i, j :| i < j && At(t, i, a) && At(t, j, b);
    assert At(q + t, |q| + i, a) && At(q + t, |q| + j, b);
  }

  lemma AheadPrefix(q: seq<int>, r: seq<int>, a: int, b: int)
    requires Ahead(q, a, b) && q <= r
    ensures Ahead(r, a, b)
  {
    var i, j :| i < j && At(q, i, a) && At(q, j, b);
    assert At(r, i, a) && At(r, j, b);
  }

  lemma {:induction false} InLevel(xs: seq<int>, pt: seq<Pcb>, l: nat, b: int)
    requires b in xs && Slot(pt, b) && pt[b].priority == l
    ensures b in ByLevel(xs, pt, l)
  {
    if xs[0] != b { InLevel(xs[1..], pt, l, b); }
  }

  lemma {:induction false} AheadLevel(xs: seq<int>, pt: seq<Pcb>, l: nat, a: int, b: int)
    requires Ahead(xs, a, b) && Slot(pt, a) && Slot(pt, b) && pt[a].priority == l == pt[b].priority
    ensures Ahead(ByLevel(xs, pt, l), a, b)
  {
    var i, j :| i < j && At(xs, i, a) && At(xs, j, b);
    var t := xs[1..];
    assert At(t, j - 1, b);
    if i == 0 {
      InLevel(t, pt, l, b);
      var k :| 0 <= k < |ByLevel(t, pt, l)| && ByLevel(t, pt, l)[k] == b;
      assert At(ByLevel(xs, pt, l), 0, a) && At(ByLevel(xs, pt, l), k + 1, b);
    } else {
      assert At(t, i - 1, a);
      AheadLevel(t, pt, l, a, b);
      AheadBehind(if Slot(pt, xs[0]) && pt[xs[0]].priority == l then [xs[0]] else [], ByLevel(t, pt, l), a, b);
    }
  }

  // ---- two sleepers ------------------------------------------------------------------------

  /** Two sleepers with one wakeup time and one level, a ahead of b. */
  ghost predicate Tied(s: St, a: int, b: int) {
    && IsIn(s.pt, a, Sleeping) && IsIn(s.pt, b, Sleeping)
    && s.pt[a].wakeup == s.pt[b].wakeup && s.pt[a].priority == s.pt[b].priority
    && Ahead(s.sleeping, a, b)
  }

  /** Both have been woken, and a will run before b or runs already. */
  ghost predicate WokenInOrder(s: St, a: int, b: int, l: nat) {
    && |s.ready| == N_PRIOS && l < N_PRIOS
    && (Ahead(s.ready[l], a, b) || (s.current == a && b in s.ready[l]))
  }

  /** They still are, with the same wakeup time and level as before. */
  ghost predicate StillTied(s: St, s': St, a: int, b: int)
    requires Tied(s, a, b)
  {
    Tied(s', a, b) && s'.pt[a].wakeup == s.pt[a].wakeup && s'.pt[a].priority == s.pt[a].priority
  }

  lemma TiedKept(s: St, s': St, a: int, b: int)
    requires Tied(s, a, b) && Ahead(s'.sleeping, a, b) && StillAsleep(s.pt, s'.pt, a) && StillAsleep(s.pt, s'.pt, b)
    ensures StillTied(s, s', a, b)
  {
  }

  /** Falling asleep disturbs no tie. */
  lemma TieSleep(s: St, e: Event, a: int, b: int)
    requires Good(s) && SleepInv(s) && Tied(s, a, b) && PutsToSleep(e) && Step(s, e).Next?
    ensures StillTied(s, Step(s, e).s, a, b)
  {
    var keys, k := SleepInserts(s, e);
    var s' := Step(s, e).s;
    SleepStep(s, e);
    AheadInsert(s.sleeping, s'.sleeping, k, s.current, a, b);
    TiedKept(s, s', a, b);
  }

  /** Where sleep() puts its caller: behind all who are due no later, before all others. */
  lemma SleepInserts(s: St, e: Event) returns (keys: seq<nat>, k: nat)
    requires Good(s) && SleepInv(s) && PutsToSleep(e) && Step(s, e).Next?
    ensures k <= |s.sleeping| && Step(s, e).s.sleeping == s.sleeping[..k] + [s.current] + s.sleeping[k..]
    ensures LaterFrom(s.sleeping, k, s.current, keys)
    ensures KeyOf(keys, s.current) == (s.time + e.arg) % TWO_32
    ensures forall p :: IsIn(s.pt, p, Sleeping) ==> KeyOf(keys, p) == s.pt[p].wakeup
  {
    CurrentRuns(s);
    CalledGood(s, e.arg);
    CalledSleepInv(s, e.arg);
    keys, k := AsleepInserts(Called(s, e.arg), e.arg);
  }

  lemma AsleepInserts(s: St, n: Word) returns (keys: seq<nat>, k: nat)
    requires Good(s) && SleepInv(s) && n > 0 && WellFormed(s) && Sleep(s, n).Next?
    ensures k <= |s.sleeping| && Sleep(s, n).s.sleeping == s.sleeping[..k] + [s.current] + s.sleeping[k..]
    ensures LaterFrom(s.sleeping, k, s.current, keys)
    ensures KeyOf(keys, s.current) == Sleeper(s, n).wakeup
    ensures forall p :: IsIn(s.pt, p, Sleeping) ==> KeyOf(keys, p) == s.pt[p].wakeup
  {
    CurrentRuns(s);
    var c := Sleeper(s, n);
    keys := Wakeups(s.pt[s.current := c]);
    SleepersKeys(s.pt, s.current, c);
    AsleepSorted(s, s.current, c);
    k := InsertedAt(s.sleeping, s.current, keys);
    var a := SleepIs(s, n);
    DispatchSleeping(a);
  }

  lemma InsertedAt(q: seq<int>, x: int, keys: seq<nat>) returns (k: nat)
    requires SortedBy(q, keys)
    ensures k <= |q| && Insert(q, x, ByWakeup, keys) == q[..k] + [x] + q[k..]
    ensures LaterFrom(q, k, x, keys)
  {
    k := InsertPos(q, x, keys);
    InsertPosSplits(q, x, keys);
  }

  lemma SleepersKeys(pt: seq<Pcb>, x: int, c: Pcb)
    requires IsIn(pt, x, Running)
    ensures KeyOf(Wakeups(pt[x := c]), x) == c.wakeup
    ensures forall p :: IsIn(pt, p, Sleeping) ==> KeyOf(Wakeups(pt[x := c]), p) == pt[p].wakeup
  {
  }

  lemma DispatchSleeping(a: St)
    requires |a.ready| == N_PRIOS && Dispatch(a).Next?
    ensures Dispatch(a).s.sleeping == a.sleeping
  {
  }

  /** A tie begins: b goes to sleep while a sleeps, with the same wakeup time and level. */
  lemma TieBegins(s: St, e: Event, a: int)
    requires Good(s) && SleepInv(s) && PutsToSleep(e) && Step(s, e).Next? && IsIn(s.pt, a, Sleeping)
    requires Slot(Step(s, e).s.pt, s.current) && Step(s, e).s.pt[s.current].wakeup == s.pt[a].wakeup
    requires Step(s, e).s.pt[s.current].priority == s.pt[a].priority
    ensures Tied(Step(s, e).s, a, s.current)
  {
    var s' := Step(s, e).s;
    SleepStep(s, e);
    var keys, k := SleepInserts(s, e);
    assert InPlace(s.pt, s.ready, s.sleeping, a);
    OccIn(s.sleeping, a);
    AheadNew(s.sleeping, s'.sleeping, k, s.current, a, keys);
    assert StillAsleep(s.pt, s'.pt, a);
  }

  lemma NotYetDue(s: St, t: nat, a: int)
    requires SleepInv(s) && IsIn(s.pt, a, Sleeping) && t == (s.time + 1) % TWO_32
    ensures Due(s.time, s.pt[a].wakeup) > 1 <==> s.pt[a].wakeup > t
  {
    DueStep(s.time, s.pt[a].wakeup);
  }

  /** A tick that is not theirs leaves the tie as it is. */
  lemma TieTick(s: St, a: int, b: int)
    requires Good(s) && SleepInv(s) && Tied(s, a, b) && Step(s, ClockTick).Next? && Due(s.time, s.pt[a].wakeup) > 1
    ensures StillTied(s, Step(s, ClockTick).s, a, b)
  {
    var s0, s1 := TickInto(s);
    assert SleepInv(s0);
    NotYetDue(s, s0.time, a);
    TieWakeAll(s0, a, b);
    UndExpire(s1);
    assert StillAsleep(s1.pt, Expire(s1).s.pt, a) && StillAsleep(s1.pt, Expire(s1).s.pt, b);
    TiedKept(s1, Expire(s1).s, a, b);
  }

  lemma TieWakeAll(s: St, a: int, b: int)
    requires Good(s) && SleepInv(s) && Tied(s, a, b) && s.pt[a].wakeup > s.time
    ensures |s.ready| == N_PRIOS && WakeAll(s).Next? && StillTied(s, WakeAll(s).s, a, b)
  {
    WakeAllPcbs(s);
    WakeSleeper(s, a);
    WakeSleeper(s, b);
    var k := DueCount(s.sleeping, Wakeups(s.pt), s.time);
    forall i | 0 <= i < k ensures s.sleeping[i] != a { assert KeyOf(Wakeups(s.pt), s.sleeping[i]) <= s.time; }
    AheadDrop(s.sleeping, k, a, b);
  }

  lemma TieStep(s: St, e: Event, a: int, b: int)
    requires Good(s) && SleepInv(s) && Tied(s, a, b) && Step(s, e).Next?
    requires e.ClockTick? ==> Due(s.time, s.pt[a].wakeup) > 1
    ensures StillTied(s, Step(s, e).s, a, b)
  {
    if e.ClockTick? {
      TieTick(s, a, b);
    } else if PutsToSleep(e) {
      TieSleep(s, e, a, b);
    } else {
      UndCall(s, e);
      assert StillAsleep(s.pt, Step(s, e).s.pt, a) && StillAsleep(s.pt, Step(s, e).s.pt, b);
      TiedKept(s, Step(s, e).s, a, b);
    }
  }

  /** Until their tick has come both sleep on in the order in which they went to sleep. */
  lemma {:induction false} TieKept(s: St, es: seq<Event>, a: int, b: int)
    requires Good(s) && SleepInv(s) && Tied(s, a, b) && Run(s, es).Next? && Ticks(es) < Due(s.time, s.pt[a].wakeup)
    ensures Good(Run(s, es).s) && SleepInv(Run(s, es).s) && StillTied(s, Run(s, es).s, a, b)
    ensures Due(Run(s, es).s.time, Run(s, es).s.pt[a].wakeup) == Due(s.time, s.pt[a].wakeup) - Ticks(es)
    decreases |es|
  {
    if es != [] {
      var s' := Step(s, es[0]).s;
      StepGood(s, es[0]);
      StepSleepInv(s, es[0]);
      StepCountsDown(s, es[0], a);
      TieStep(s, es[0], a, b);
      TieKept(s', es[1..], a, b);
    }
  }

  // ---- the tick that wakes them ------------------------------------------------------------

  lemma GainsAt(ready': seq<seq<int>>, s: St, t: seq<int>, l: nat)
    requires Gains(ready', s, t) && l < N_PRIOS
    ensures ready'[l] == s.ready[l] + ByLevel(t, s.pt, l)
  {
  }

  lemma TieDue(s: St, a: int, b: int)
    requires Good(s) && SleepInv(s) && Tied(s, a, b) && s.pt[a].wakeup <= s.time
    ensures |s.ready| == N_PRIOS && WakeAll(s).Next? && s.pt[a].priority < N_PRIOS
    ensures var s' := WakeAll(s).s; |s'.ready| == N_PRIOS && Ahead(s'.ready[s.pt[a].priority], a, b)
  {
    WakeAllOrder(s);
    SortedDue(s.sleeping, Wakeups(s.pt), s.time);
    assert Tidy(s.pt, a);
    var k, l := DueCount(s.sleeping, Wakeups(s.pt), s.time), s.pt[a].priority;
    AheadTake(s.sleeping, k, a, b);
    AheadLevel(s.sleeping[..k], s.pt, l, a, b);
    AheadBehind(s.ready[l], ByLevel(s.sleeping[..k], s.pt, l), a, b);
    GainsAt(WakeAll(s).s.ready, s, s.sleeping[..k], l);
  }

  lemma OrderExpire(s: St, a: int, b: int, l: nat)
    requires Good(s) && WellFormed(s) && Expire(s).Next? && l < N_PRIOS && Ahead(s.ready[l], a, b)
    ensures WokenInOrder(Expire(s).s, a, b, l)
  {
    var m, d := ExpireShape(s);
    AheadPrefix(s.ready[l], m.ready[l], a, b);
    if d { OrderDispatch(m, a, b, l); }
  }

  lemma OrderDispatch(m: St, a: int, b: int, l: nat)
    requires |m.ready| == N_PRIOS && Dispatch(m).Next? && l < N_PRIOS && Ahead(m.ready[l], a, b)
    ensures WokenInOrder(Dispatch(m).s, a, b, l)
  {
    var q := m.ready[l];
    var i, j :| i < j && At(q, i, a) && At(q, j, b);
    if TopLevel(m.ready) == l {
      assert At(q[1..], j - 1, b);
      if i > 0 { assert At(q[1..], i - 1, a); }
    }
  }

  /** The tick that is due wakes both at once, in the order in which they went to sleep. */
  lemma TieWakes(s: St, es: seq<Event>, a: int, b: int)
    requires Good(s) && SleepInv(s) && Tied(s, a, b) && Run(s, es).Next?
    requires Ticks(es) + 1 == Due(s.time, s.pt[a].wakeup)
    requires Step(Run(s, es).s, ClockTick).Next?
    ensures WokenInOrder(Step(Run(s, es).s, ClockTick).s, a, b, s.pt[a].priority)
  {
    TieKept(s, es, a, b);
    TieWakesNow(Run(s, es).s, a, b);
  }

  lemma TieWakesNow(s: St, a: int, b: int)
    requires Good(s) && SleepInv(s) && Tied(s, a, b) && Due(s.time, s.pt[a].wakeup) == 1
    requires Step(s, ClockTick).Next?
    ensures WokenInOrder(Step(s, ClockTick).s, a, b, s.pt[a].priority)
  {
    var s0, s1 := TickInto(s);
    assert SleepInv(s0);
    NotYetDue(s, s0.time, a);
    TieDue(s0, a, b);
    OrderExpire(s1, a, b, s.pt[a].priority);
  }
}
