/**
 Every PCB is in exactly one place: once in ready[priority] when Ready, once in
 sleeping when Sleeping, `current` when Running, and in none of these otherwise.
 The lemmas follow one primitive at a time; `r` is the one process that may be
 Running, NIL while the CPU is between processes.
 */
module ProcSched {
  import opened QueueSpec
  import opened ProcSpec

  function ReadyAt(pt: seq<Pcb>, p: int, i: nat): nat {
    if IsIn(pt, p, Ready) && pt[p].priority == i then 1 else 0
  }

  function AsleepAt(pt: seq<Pcb>, p: int): nat {
    if IsIn(pt, p, Sleeping) then 1 else 0
  }

  ghost predicate InPlace(pt: seq<Pcb>, ready: seq<seq<int>>, sleeping: seq<int>, p: int)
    requires |ready| == N_PRIOS
  {
    && Occ(ready[0], p) == ReadyAt(pt, p, 0)
    && Occ(ready[1], p) == ReadyAt(pt, p, 1)
    && Occ(ready[2], p) == ReadyAt(pt, p, 2)
    && Occ(sleeping, p) == AsleepAt(pt, p)
    && (IsIn(pt, p, Ready) ==> pt[p].priority < N_PRIOS)
  }

  ghost predicate OnCpu(pt: seq<Pcb>, p: int, r: int) {
    IsIn(pt, p, Running) <==> p == r != NIL
  }

  ghost predicate Placed(pt: seq<Pcb>, ready: seq<seq<int>>, sleeping: seq<int>, r: int) {
    && |ready| == N_PRIOS
    && (forall p: int :: InPlace(pt, ready, sleeping, p))
    && (forall p: int :: OnCpu(pt, p, r))
  }

  /** Changes that leave every state and priority alone move nobody. */
  ghost predicate SamePlaces(pt: seq<Pcb>, pt': seq<Pcb>) {
    && |pt'| == |pt|
    && forall i :: 0 <= i < |pt| ==> pt'[i].state == pt[i].state && pt'[i].priority == pt[i].priority
  }

  lemma PlacedSame(pt: seq<Pcb>, pt': seq<Pcb>, ready: seq<seq<int>>, sleeping: seq<int>, r: int)
    requires Placed(pt, ready, sleeping, r) && SamePlaces(pt, pt')
    ensures Placed(pt', ready, sleeping, r)
  {
    forall p: int ensures InPlace(pt', ready, sleeping, p) { assert InPlace(pt, ready, sleeping, p); }
    forall p: int ensures OnCpu(pt', p, r) { assert OnCpu(pt, p, r); }
  }

  /** Who is neither Ready nor Sleeping may become anything that is in no queue either. */
  lemma PlacedNowhere(pt: seq<Pcb>, ready: seq<seq<int>>, sleeping: seq<int>, r: int, x: int, c: Pcb)
    requires Placed(pt, ready, sleeping, r) && Slot(pt, x)
    requires !IsIn(pt, x, Ready) && !IsIn(pt, x, Sleeping)
    requires c.state != Ready && c.state != Sleeping && c.state != Running
    ensures Placed(pt[x := c], ready, sleeping, if x == r then NIL else r)
  {
    var pt' := pt[x := c];
    forall p: int ensures InPlace(pt', ready, sleeping, p) { assert InPlace(pt, ready, sleeping, p); }
    var r' := if x == r then NIL else r;
    forall p: int ensures OnCpu(pt', p, r') { assert OnCpu(pt, p, r); assert OnCpu(pt, x, r); }
  }

  /** schedule(): x joins its ready queue. */
  lemma PlacedReady(pt: seq<Pcb>, ready: seq<seq<int>>, sleeping: seq<int>, r: int, x: int)
    requires Placed(pt, ready, sleeping, r) && Slot(pt, x) && pt[x].priority < N_PRIOS
    requires !IsIn(pt, x, Ready) && !IsIn(pt, x, Sleeping)
    ensures var i := pt[x].priority;
      Placed(pt[x := pt[x].(state := Ready)], ready[i := ready[i] + [x]], sleeping, if x == r then NIL else r)
  {
    var i := pt[x].priority;
    var pt' := pt[x := pt[x].(state := Ready)];
    var ready' := ready[i := ready[i] + [x]];
    forall p: int ensures InPlace(pt', ready', sleeping, p) {
      assert InPlace(pt, ready, sleeping, p);
      InsertOcc(ready[i], x, Fifo, [], p);
    }
    var r' := if x == r then NIL else r;
    forall p: int ensures OnCpu(pt', p, r') { assert OnCpu(pt, p, r); assert OnCpu(pt, x, r); }
  }

  /** dispatch(): the head of a ready queue becomes the running process. */
  lemma PlacedDispatch(pt: seq<Pcb>, ready: seq<seq<int>>, sleeping: seq<int>, i: nat, c: Pcb)
    requires Placed(pt, ready, sleeping, NIL) && i < N_PRIOS && ready[i] != []
    requires c.state == Running
    ensures var x := ready[i][0];
      && IsIn(pt, x, Ready) && pt[x].priority == i
      && Placed(pt[x := c], ready[i := ready[i][1..]], sleeping, x)
  {
    var x := ready[i][0];
    HeadOcc(ready[i], x);
    assert InPlace(pt, ready, sleeping, x);
    var pt' := pt[x := c];
    var ready' := ready[i := ready[i][1..]];
    forall p: int ensures InPlace(pt', ready', sleeping, p) {
      assert InPlace(pt, ready, sleeping, p);
      HeadOcc(ready[i], p);
    }
    forall p: int ensures OnCpu(pt', p, x) { assert OnCpu(pt, p, NIL); }
  }

  /** sys_sleep(): x joins the sleep queue. */
  lemma PlacedSleep(pt: seq<Pcb>, ready: seq<seq<int>>, sleeping: seq<int>, r: int, x: int, c: Pcb, keys: seq<nat>)
    requires Placed(pt, ready, sleeping, r) && Slot(pt, x) && c.state == Sleeping
    requires !IsIn(pt, x, Ready) && !IsIn(pt, x, Sleeping)
    ensures Placed(pt[x := c], ready, Insert(sleeping, x, ByWakeup, keys), if x == r then NIL else r)
  {
    var pt' := pt[x := c];
    var sleeping' := Insert(sleeping, x, ByWakeup, keys);
    forall p: int ensures InPlace(pt', ready, sleeping', p) {
      assert InPlace(pt, ready, sleeping, p);
      InsertOcc(sleeping, x, ByWakeup, keys, p);
    }
    var r' := if x == r then NIL else r;
    forall p: int ensures OnCpu(pt', p, r') { assert OnCpu(pt, p, r); assert OnCpu(pt, x, r); }
  }

  /** One turn of the wake loop: the head of the sleep queue joins its ready queue. */
  lemma PlacedWake(pt: seq<Pcb>, ready: seq<seq<int>>, sleeping: seq<int>, r: int)
    requires Placed(pt, ready, sleeping, r) && sleeping != []
    ensures var x := sleeping[0];
      && IsIn(pt, x, Sleeping)
      && (pt[x].priority < N_PRIOS ==>
            var i := pt[x].priority;
            Placed(pt[x := pt[x].(state := Ready)], ready[i := ready[i] + [x]], sleeping[1..], r))
  {
    var x := sleeping[0];
    HeadOcc(sleeping, x);
    assert InPlace(pt, ready, sleeping, x);
    if pt[x].priority < N_PRIOS {
      var i := pt[x].priority;
      var pt' := pt[x := pt[x].(state := Ready)];
      var ready' := ready[i := ready[i] + [x]];
      forall p: int ensures InPlace(pt', ready', sleeping[1..], p) {
        assert InPlace(pt, ready, sleeping, p);
        HeadOcc(sleeping, p);
        InsertOcc(ready[i], x, Fifo, [], p);
      }
      forall p: int ensures OnCpu(pt', p, r) { assert OnCpu(pt, p, r); }
    }
  }
}
