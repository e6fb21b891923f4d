/** Every step keeps the invariant of the task queue. */
module TaskProofs {
  import opened Basics
  import opened TaskQueue
  import opened TaskRuns

  // ---- Tallies ----

  lemma BumpGet(m: map<Item, nat>, x: Item, n: nat)
    ensures forall y :: Get(Bump(m, x, n), y) == if y == x then Get(m, x) + n else Get(m, y)
  {
  }

  lemma SetGet(m: map<Item, nat>, x: Item, n: nat)
    ensures forall y :: Get(m[x := n], y) == if y == x then n else Get(m, y)
  {
    var m' := m[x := n];
    assert forall y :: Get(m', y) == if y == x then n else Get(m, y);
  }

  /** An enqueue is accepted, and counted as pending or as lost. */
  lemma AcceptedCounts(t: Tally, pending: map<Item, nat>, x: Item, t': Tally, pending': map<Item, nat>)
    requires CountsOk(t, pending) && t'.delivered == t.delivered && t'.cancelled == t.cancelled
    requires t'.accepted == Bump(t.accepted, x, 1)
    requires || (t'.lost == t.lost && pending' == Bump(pending, x, 1))
             || (t'.lost == Bump(t.lost, x, 1) && pending' == pending && Get(pending, x) == USHRT_MAX)
    ensures CountsOk(t', pending')
  {
    BumpGet(t.accepted, x, 1);
    BumpGet(t.lost, x, 1);
    BumpGet(pending, x, 1);
    hide Get, Bump;
    forall y: Item | y.Task? ensures Conserved(t', pending', y) {
      assert Conserved(t, pending, y);
    }
  }

  /** What was pending is delivered. */
  lemma DeliveredCounts(t: Tally, pending: map<Item, nat>, x: Item)
    requires CountsOk(t, pending)
    ensures CountsOk(t.(delivered := Bump(t.delivered, x, Get(pending, x))), pending[x := 0])
  {
    var t', pending' := t.(delivered := Bump(t.delivered, x, Get(pending, x))), pending[x := 0];
    BumpGet(t.delivered, x, Get(pending, x));
    SetGet(pending, x, 0);
    hide Get, Bump;
    forall y: Item | y.Task? ensures Conserved(t', pending', y) {
      assert Conserved(t, pending, y);
    }
  }

  /** What was pending is reported by cancel. */
  lemma CancelledCounts(t: Tally, pending: map<Item, nat>, x: Item)
    requires CountsOk(t, pending)
    ensures CountsOk(t.(cancelled := Bump(t.cancelled, x, Get(pending, x))), pending[x := 0])
  {
    var t', pending' := t.(cancelled := Bump(t.cancelled, x, Get(pending, x))), pending[x := 0];
    BumpGet(t.cancelled, x, Get(pending, x));
    SetGet(pending, x, 0);
    hide Get, Bump;
    forall y: Item | y.Task? ensures Conserved(t', pending', y) {
      assert Conserved(t, pending, y);
    }
  }

  // ---- Drains ----

  /** Drains do not notice changes that keep barriers, order and executions. */
  lemma DrainsKept(q: seq<Item>, q': seq<Item>, active: seq<Busy>, active': seq<Busy>,
                   total: nat, drains: map<nat, Drain>)
    requires DrainsOk(q, active, total, drains)
    requires ActiveStarts(active) <= ActiveStarts(active')
    requires forall d :: Barrier(d) in q' <==> Barrier(d) in q
    requires forall y, d :: Before(q, y, Barrier(d)) ==> Before(q', y, Barrier(d))
    ensures DrainsOk(q', active', total, drains)
  {
    hide Before, ActiveStarts;
    forall d | d in drains ensures DrainOk(q', active', total, d, drains[d]) {
      assert DrainOk(q, active, total, d, drains[d]);
    }
  }

  lemma PendingHere(q: seq<Item>, pending: map<Item, nat>, x: Item)
    requires PendingOk(q, pending)
    ensures PendingAt(q, pending, x)
  {
  }

  // ---- Enqueue ----

  lemma CountedAgainInv(st: State, x: Item)
    requires Inv(st) && IsTask(x) && Get(st.pending, x) > 0
    ensures Inv(CountedAgain(st, x))
  {
    hide CountsOk, QueueOk, WorkersOk, DrainsOk, PendingOk, AtActiveDrains;
    var st' := CountedAgain(st, x);
    PendingHere(st.queue, st.pending, x);
    AcceptedCounts(st.tally, st.pending, x, st'.tally, st'.pending);
    if Get(st.pending, x) < USHRT_MAX {
      PendingSet(st.queue, st.pending, st.queue, x, Get(st.pending, x) + 1);
    }
  }

  lemma QueuedMembers(q: seq<Item>, hint: Option<Item>, x: Item)
    requires QueueOk(q, hint) && IsTask(x) && x !in q
    ensures QueueOk(Inserted(q, hint, x), HintAfter(q, hint, x))
    ensures forall y :: y in Inserted(q, hint, x) <==> y in q || y == x
    ensures forall y, z :: Before(q, y, z) ==> Before(Inserted(q, hint, x), y, z)
  {
    InsertedOk(q, hint, x);
    InsertAtMembers(q, InsertPos(q, hint, x), x);
  }

  lemma QueuedInv(st: State, x: Item)
    requires Inv(st) && IsTask(x) && Get(st.pending, x) == 0
    ensures Inv(Queued(st, x))
  {
    hide CountsOk, QueueOk, WorkersOk, DrainsOk, PendingOk, AtActiveDrains, Before, Inserted, HintAfter;
    var q := Inserted(st.queue, st.hint, x);
    PendingHere(st.queue, st.pending, x);
    QueuedMembers(st.queue, st.hint, x);
    PendingSet(st.queue, st.pending, q, x, 1);
    DrainsKept(st.queue, q, st.active, st.active, st.total, st.drains);
    AcceptedCounts(st.tally, st.pending, x, Accept(st.tally, x), st.pending[x := 1]);
  }

  lemma EnqueueInv(st: State, x: Item, fp: bool, fc: bool)
    requires Inv(st) && IsTask(x)
    ensures Inv(DoEnqueue(st, x, fp, fc))
  {
    hide Inv, CountedAgain, Queued, IsCanceling;
    if Get(st.pending, x) > 0 { CountedAgainInv(st, x); } else { QueuedInv(st, x); }
  }

  // ---- Cancel ----

  lemma MarkKeeps(active: seq<Busy>, x: Item, total: nat)
    requires WorkersOk(active, total)
    ensures WorkersOk(MarkCanceling(active, x), total)
    ensures ActiveStarts(MarkCanceling(active, x)) == ActiveStarts(active)
  {
    var active' := MarkCanceling(active, x);
    forall i | 0 <= i < |active'| ensures WorkerOk(active'[i], total) && active'[i].start in ActiveStarts(active) {
      assert WorkerOk(active[i], total);
    }
    forall i | 0 <= i < |active| ensures active[i].start in ActiveStarts(active') {
      assert active'[i].start == active[i].start;
    }
  }

  lemma CancelDrains(q: seq<Item>, q': seq<Item>, active: seq<Busy>, total: nat, drains: map<nat, Drain>, x: Item)
    requires DrainsOk(q, active, total, drains) && x.Task? && x !in q'
    requires forall y :: y != x ==> (y in q' <==> y in q)
    requires forall y, z :: y != x && z != x && Before(q, y, z) ==> Before(q', y, z)
    ensures DrainsOk(q', active, total, AllCancel(drains, x))
  {
    hide Before, ActiveStarts;
    forall d | d in drains ensures DrainOk(q', active, total, d, AllCancel(drains, x)[d]) {
      assert DrainOk(q, active, total, d, drains[d]);
    }
  }

  lemma SameKinds(m: map<nat, Drain>, m': map<nat, Drain>)
    requires forall d :: d in m <==> d in m'
    requires forall d :: d in m ==> (m[d].AtActive? <==> m'[d].AtActive?)
    ensures AtActiveDrains(m) == AtActiveDrains(m')
  {
  }

  lemma RemovedMembers(q: seq<Item>, hint: Option<Item>, k: nat)
    requires QueueOk(q, hint) && k < |q| && (q[k].Task? || k == 0)
    ensures QueueOk(RemoveAt(q, k), HintWithout(hint, q[k])) && q[k] !in RemoveAt(q, k)
    ensures forall y :: y != q[k] ==> (y in RemoveAt(q, k) <==> y in q)
    ensures forall y, z :: y != q[k] && z != q[k] && Before(q, y, z) ==> Before(RemoveAt(q, k), y, z)
  {
    RemovedOk(q, hint, k);
    RemoveAtMembers(q, k);
  }

  lemma CancelInv(st: State, x: Item)
    requires Inv(st) && IsTask(x)
    ensures Inv(DoCancel(st, x))
  {
    MarkKeeps(st.active, x, st.total);
    SameKinds(st.drains, AllCancel(st.drains, x));
    hide QueueOk, PendingOk, WorkersOk, DrainsOk, Before, ActiveStarts, CountsOk, AtActiveDrains;
    hide MarkCanceling, AllCancel, RemoveAt, HintWithout;
    PendingHere(st.queue, st.pending, x);
    DrainsKept(st.queue, st.queue, st.active, MarkCanceling(st.active, x), st.total, st.drains);
    if x in st.queue {
      var k := IndexOf(st.queue, x);
      var q := RemoveAt(st.queue, k);
      RemovedMembers(st.queue, st.hint, k);
      PendingSet(st.queue, st.pending, q, x, 0);
      CancelledCounts(st.tally, st.pending, x);
      CancelDrains(st.queue, q, MarkCanceling(st.active, x), st.total, st.drains, x);
    }
  }

  // ---- Starting a task ----

  lemma HeadIsFirst(q: seq<Item>, hint: Option<Item>, y: Item)
    requires QueueOk(q, hint) && q != []
    ensures !Before(q, y, q[0])
  {
  }

  lemma HeadRemoved(q: seq<Item>, hint: Option<Item>)
    requires QueueOk(q, hint) && q != []
    ensures QueueOk(q[1..], HintWithout(hint, q[0]))
    ensures forall y :: y in q[1..] <==> y in q && y != q[0]
    ensures forall y, z :: y != q[0] && z != q[0] && Before(q, y, z) ==> Before(q[1..], y, z)
  {
    assert RemoveAt(q, 0) == q[1..];
    RemovedMembers(q, hint, 0);
  }

  /** A drain counts the started task as an execution to wait for if it was owed. */
  lemma TakenDrain(q: seq<Item>, hint: Option<Item>, active: seq<Busy>, active': seq<Busy>, total: nat,
                   d: nat, r: Drain)
    requires q != [] && QueueOk(q, hint) && DrainOk(q, active, total, d, r)
    requires ActiveStarts(active) + {total + 1} <= ActiveStarts(active')
    ensures DrainOk(q[1..], active', total + 1, d, DrainStarts(r, q[0], total + 1))
  {
    HeadRemoved(q, hint);
    if r.AtBarrier? && Barrier(d) == q[0] {
      forall x | x in r.owed ensures x == Barrier(d) {
        HeadIsFirst(q, hint, x);
      }
    }
    hide QueueOk, ActiveStarts, Before;
  }

  lemma TakenDrains(q: seq<Item>, hint: Option<Item>, active: seq<Busy>, active': seq<Busy>, total: nat,
                    drains: map<nat, Drain>)
    requires q != [] && QueueOk(q, hint) && DrainsOk(q, active, total, drains)
    requires ActiveStarts(active) + {total + 1} <= ActiveStarts(active')
    ensures DrainsOk(q[1..], active', total + 1, AllStart(drains, q[0], total + 1))
  {
    HeadRemoved(q, hint);
    hide QueueOk, ActiveStarts, DrainOk, Before;
    forall d | d in drains ensures DrainOk(q[1..], active', total + 1, d, AllStart(drains, q[0], total + 1)[d]) {
      TakenDrain(q, hint, active, active', total, d, drains[d]);
    }
  }

  /** The next task is taken off the head and shows up among the active ones. */
  lemma TakenInv(st: State, active': seq<Busy>)
    requires Inv(st) && st.queue != [] && WorkersOk(active', st.total + 1)
    requires ActiveStarts(active') == ActiveStarts(st.active) + {st.total + 1}
    ensures Inv(Taken(st).(active := active'))
  {
    var x := st.queue[0];
    SameKinds(st.drains, AllStart(st.drains, x, st.total + 1));
    hide QueueOk, PendingOk, WorkersOk, DrainsOk, CountsOk, ActiveStarts, Before, AtActiveDrains, AllStart;
    HeadRemoved(st.queue, st.hint);
    PendingSet(st.queue, st.pending, st.queue[1..], x, 0);
    DeliveredCounts(st.tally, st.pending, x);
    TakenDrains(st.queue, st.hint, st.active, active', st.total, st.drains);
    NextSeq(st.total);
  }

  lemma NextSeq(total: nat)
    ensures (total % TWO32 + 1) % TWO32 == (total + 1) % TWO32
  {
  }

  lemma StartWorkers(active: seq<Busy>, total: nat, b: Busy)
    requires WorkersOk(active, total) && !HasWorker(active, b.worker)
    requires b.start == total + 1 && b.seqNo == (total + 1) % TWO32
    ensures WorkersOk([b] + active, total + 1)
    ensures ActiveStarts([b] + active) == ActiveStarts(active) + {total + 1}
  {
    var active' := [b] + active;
    assert active'[0] == b;
    forall i | 0 <= i < |active| ensures active'[i + 1] == active[i] && WorkerOk(active[i], total) {
    }
    assert ActiveStarts(active') <= ActiveStarts(active) + {total + 1};
    forall i | 0 <= i < |active| ensures active[i].start in ActiveStarts(active') {
      assert active'[i + 1].start == active[i].start;
    }
  }

  lemma StartInv(st: State, w: nat)
    requires Inv(st) && st.queue != [] && !HasWorker(st.active, w)
    ensures Inv(DoStart(st, w))
  {
    NextSeq(st.total);
    StartWorkers(st.active, st.total, NewBusy(st, w));
    hide Inv, ActiveStarts, WorkersOk;
    TakenInv(st, [NewBusy(st, w)] + st.active);
  }

  // ---- Finishing a task ----

  lemma LeftWorkers(active: seq<Busy>, total: nat, k: nat)
    requires WorkersOk(active, total) && k < |active|
    ensures WorkersOk(active[..k] + active[k + 1..], total)
    ensures ActiveStarts(active[..k] + active[k + 1..]) == ActiveStarts(active) - {active[k].start}
  {
    var active' := active[..k] + active[k + 1..];
    forall i | 0 <= i < |active'| ensures
      WorkerOk(active'[i], total) && active'[i].start in ActiveStarts(active) && active'[i].start != active[k].start
    {
      assert WorkerOk(active[if i < k then i else i + 1], total);
    }
    forall i | 0 <= i < |active| && i != k ensures active[i].start in ActiveStarts(active') {
      assert active'[if i < k then i else i - 1] == active[i];
    }
  }

  lemma LeftDrains(q: seq<Item>, active: seq<Busy>, active': seq<Busy>, total: nat, drains: map<nat, Drain>, n: nat)
    requires DrainsOk(q, active, total, drains) && ActiveStarts(active') == ActiveStarts(active) - {n}
    ensures DrainsOk(q, active', total, AllFinish(drains, n))
  {
    hide ActiveStarts, Before;
    forall d | d in drains ensures DrainOk(q, active', total, d, AllFinish(drains, n)[d]) {
      assert DrainOk(q, active, total, d, drains[d]);
    }
  }

  lemma LeftInv(st: State, w: nat)
    requires Inv(st) && HasWorker(st.active, w)
    ensures Inv(Left(st, w))
  {
    var k := WorkerIndex(st.active, w);
    SameKinds(st.drains, AllFinish(st.drains, st.active[k].start));
    LeftWorkers(st.active, st.total, k);
    hide QueueOk, PendingOk, WorkersOk, DrainsOk, CountsOk, ActiveStarts, HasWorker, AtActiveDrains, AllFinish;
    LeftDrains(st.queue, st.active, Left(st, w).active, st.total, st.drains, st.active[k].start);
  }

  lemma NextWorkers(active: seq<Busy>, total: nat, k: nat, b: Busy)
    requires WorkersOk(active, total) && k < |active| && b.worker == active[k].worker
    requires b.start == total + 1 && b.seqNo == (total + 1) % TWO32
    ensures WorkersOk(active[k := b], total + 1)
    ensures ActiveStarts(active[k := b]) == ActiveStarts(active[..k] + active[k + 1..]) + {total + 1}
  {
    var active', left := active[k := b], active[..k] + active[k + 1..];
    forall i | 0 <= i < |active| && i != k ensures WorkerOk(active[i], total) && active'[i] == active[i]
                                                   && active[i].start in ActiveStarts(left)
    {
      assert left[if i < k then i else i - 1] == active[i];
    }
    assert active'[k] == b;
    forall i | 0 <= i < |left| ensures left[i].start in ActiveStarts(active') {
      assert active'[if i < k then i else i + 1] == left[i];
    }
  }

  lemma FinishInv(st: State, w: nat)
    requires Inv(st) && HasWorker(st.active, w)
    ensures Inv(DoFinish(st, w))
  {
    LeftInv(st, w);
    if st.queue != [] {
      var k := WorkerIndex(st.active, w);
      var b := NewBusy(st, w);
      NextSeq(st.total);
      NextWorkers(st.active, st.total, k, b);
      hide Inv, ActiveStarts, WorkersOk, HasWorker;
      TakenInv(Left(st, w), st.active[k := b]);
    }
  }

  // ---- Drains ----

  /** The sequence comparison waits for an execution exactly up to 2^31 starts back. */
  lemma NotAfterIsAge(n: nat, snap: nat)
    requires n <= snap
    ensures NotAfter(n % TWO32, snap % TWO32) <==> (snap - n) % TWO32 <= HALF
  {
    var m := (snap - n) % TWO32;
    var diff := (n % TWO32 - snap % TWO32) % TWO32;
    ModOfDifference(n, snap);
    ModOfDifference(snap, n);
    assert (m + diff) % TWO32 == 0;
  }

  lemma ModOfDifference(a: nat, b: nat)
    ensures (a % TWO32 - b % TWO32) % TWO32 == (a - b) % TWO32
  {
    var t := a / TWO32 - b / TWO32;
    assert a - b == (a % TWO32 - b % TWO32) + TWO32 * t;
  }

  lemma KindsSet(m: map<nat, Drain>, d: nat, r: Drain)
    ensures AtActiveDrains(m[d := r]) == if r.AtActive? then AtActiveDrains(m) + {d} else AtActiveDrains(m) - {d}
    ensures d in AtActiveDrains(m) <==> d in m && m[d].AtActive?
  {
  }

  lemma EnterActiveDrain(q: seq<Item>, active: seq<Busy>, total: nat, d: nat, running: set<nat>)
    requires WorkersOk(active, total) && running <= ActiveStarts(active)
    ensures DrainOk(q, active, total, d, if active == [] then Done(total, running) else AtActive(total, running))
  {
    forall n | n in ActiveStarts(active) ensures n <= total {
      var i :| 0 <= i < |active| && n == active[i].start;
      assert WorkerOk(active[i], total);
    }
    if active == [] { assert ActiveStarts(active) == {}; }
  }

  lemma DrainReplaced(q: seq<Item>, active: seq<Busy>, total: nat, drains: map<nat, Drain>, d: nat, r: Drain)
    requires DrainsOk(q, active, total, drains) && Barrier(d) !in q && DrainOk(q, active, total, d, r)
    ensures DrainsOk(q, active, total, drains[d := r])
  {
    hide DrainOk;
  }

  /** A drain enters its second half, or is over when nothing is running. */
  lemma EnterActiveInv(st: State, d: nat, running: set<nat>)
    requires Inv(st) && running <= ActiveStarts(st.active)
    requires Barrier(d) !in st.queue && (d in st.drains ==> st.drains[d].AtBarrier?)
    ensures Inv(EnterActive(st, d, running))
  {
    var r := if st.active == [] then Done(st.total, running) else AtActive(st.total, running);
    EnterActiveDrain(st.queue, st.active, st.total, d, running);
    KindsSet(st.drains, d, r);
    hide QueueOk, PendingOk, WorkersOk, DrainOk, DrainsOk, CountsOk, ActiveStarts, AtActiveDrains;
    DrainReplaced(st.queue, st.active, st.total, st.drains, d, r);
    assert EnterActive(st, d, running).drains == st.drains[d := r];
  }

  lemma BarrierQueue(q: seq<Item>, hint: Option<Item>, d: nat)
    requires QueueOk(q, hint) && Barrier(d) !in q
    ensures QueueOk(q + [Barrier(d)], Some(Barrier(d)))
    ensures forall y, z :: Before(q, y, z) ==> Before(q + [Barrier(d)], y, z)
    ensures forall y :: y in q ==> Before(q + [Barrier(d)], y, Barrier(d))
  {
    var q' := q + [Barrier(d)];
    InsertAtOk(q, |q|, Barrier(d));
    InsertAtMembers(q, |q|, Barrier(d));
    assert InsertAt(q, |q|, Barrier(d)) == q';
    forall y | y in q ensures Before(q', y, Barrier(d)) {
      assert q'[IndexOf(q, y)] == y && q'[|q|] == Barrier(d);
    }
  }

  lemma BarrierDrains(q: seq<Item>, hint: Option<Item>, active: seq<Busy>, total: nat, drains: map<nat, Drain>, d: nat)
    requires QueueOk(q, hint) && DrainsOk(q, active, total, drains) && d !in drains && Barrier(d) !in q
    ensures DrainsOk(q + [Barrier(d)], active, total,
                     drains[d := AtBarrier(Members(q) + {Barrier(d)}, ActiveStarts(active))])
  {
    BarrierQueue(q, hint, d);
    hide Before, ActiveStarts, QueueOk;
    var drains' := drains[d := AtBarrier(Members(q) + {Barrier(d)}, ActiveStarts(active))];
    forall e | e in drains' ensures DrainOk(q + [Barrier(d)], active, total, e, drains'[e]) {
      if e != d { assert DrainOk(q, active, total, e, drains[e]); }
    }
  }

  lemma BarrierCounts(t: Tally, pending: map<Item, nat>, d: nat)
    requires CountsOk(t, pending)
    ensures CountsOk(t, pending[Barrier(d) := 1])
  {
    var pending' := pending[Barrier(d) := 1];
    forall y: Item | y.Task? ensures Conserved(t, pending', y) {
      assert Conserved(t, pending, y);
    }
  }

  lemma BeginDrainInv(st: State, d: nat)
    requires Inv(st) && d !in st.drains
    ensures Inv(DoBeginDrain(st, d))
  {
    if st.queue == [] {
      EnterActiveInv(st, d, ActiveStarts(st.active));
    } else {
      KindsSet(st.drains, d, AtBarrier(Members(st.queue) + {Barrier(d)}, ActiveStarts(st.active)));
      BarrierDrains(st.queue, st.hint, st.active, st.total, st.drains, d);
      hide PendingOk, QueueOk, DrainsOk, WorkersOk, CountsOk, ActiveStarts, Members, AtActiveDrains, Before;
      PendingSet(st.queue, st.pending, st.queue + [Barrier(d)], Barrier(d), 1);
      BarrierQueue(st.queue, st.hint, d);
      BarrierCounts(st.tally, st.pending, d);
    }
  }

  lemma PassBarrierInv(st: State, d: nat)
    requires Inv(st) && Enabled(st, PassBarrier(d))
    ensures Inv(EnterActive(st, d, st.drains[d].running))
  {
    PendingHere(st.queue, st.pending, Barrier(d));
    assert DrainOk(st.queue, st.active, st.total, d, st.drains[d]);
    hide Inv, ActiveStarts, Before;
    EnterActiveInv(st, d, st.drains[d].running);
  }

  /** What the comparison let pass while still running is more than 2^31 starts old. */
  lemma AgedOut(active: seq<Busy>, total: nat, snap: nat, n: nat)
    requires WorkersOk(active, total) && ActiveClear(active, snap) && n in ActiveStarts(active) && n <= snap
    ensures (snap - n) % TWO32 > HALF
  {
    var i :| 0 <= i < |active| && n == active[i].start;
    assert WorkerOk(active[i], total);
    NotAfterIsAge(n, snap);
  }

  lemma PassActiveDrain(st: State, d: nat)
    requires Inv(st) && Enabled(st, PassActive(d))
    ensures DrainOk(st.queue, st.active, st.total, d, Done(st.drains[d].snap, st.drains[d].running))
  {
    var r := st.drains[d];
    assert DrainOk(st.queue, st.active, st.total, d, r);
    hide ActiveStarts, WorkersOk, ActiveClear, Before, DrainsOk, PendingOk, QueueOk, CountsOk, AtActiveDrains;
    forall n | n in r.running ensures n <= r.snap && (r.snap - n) % TWO32 > HALF {
      AgedOut(st.active, st.total, r.snap, n);
    }
  }

  lemma PassActiveInv(st: State, d: nat)
    requires Inv(st) && Enabled(st, PassActive(d))
    ensures Inv(DoPassActive(st, d))
  {
    PassActiveDrain(st, d);
    KindsSet(st.drains, d, DoPassActive(st, d).drains[d]);
    hide QueueOk, PendingOk, WorkersOk, DrainOk, CountsOk, ActiveClear, ActiveStarts, AtActiveDrains;
  }

  // ---- All of it ----

  lemma DisarmedInv(st: State, x: Item)
    requires Inv(st)
    ensures Inv(Disarmed(st, x))
  {
  }

  lemma InvStep(st: State, e: Step)
    requires Inv(st) && Enabled(st, e)
    ensures Inv(Apply(st, e))
  {
    match e {
      case Enqueue(x, fp, fc) => EnqueueInv(st, x, fp, fc);
      case Cancel(x) => CancelInv(st, x);
      case Start(w) => StartInv(st, w);
      case Finish(w) => FinishInv(st, w);
      case BeginDrain(d) => BeginDrainInv(st, d);
      case PassBarrier(d) => PassBarrierInv(st, d);
      case PassActive(d) => PassActiveInv(st, d);
      case Arm(x) =>
      case Fire(x) =>
        DisarmedInv(st, x);
        EnqueueInv(Disarmed(st, x), x, false, false);
      case CancelTimeout(x) =>
        CancelInv(st, x);
        DisarmedInv(DoCancel(st, x), x);
    }
  }

  lemma InitialInv(st: State)
    requires Initial(st)
    ensures Inv(st)
  {
    assert AtActiveDrains(st.drains) == {};
  }

  /** In every state of every run the invariant holds. */
  lemma {:induction false} InvRun(run: seq<State>, steps: seq<Step>, k: nat)
    requires IsRun(run, steps) && k < |run|
    ensures Inv(run[k])
  {
    hide Inv, Enabled, Apply;
    if k == 0 { InitialInv(run[0]); } else {
      InvRun(run, steps, k - 1);
      InvStep(run[k - 1], steps[k - 1]);
    }
  }
}
