/** What the task queue promises over whole runs: drains wait, and no enqueue goes missing. */
module TaskTheorems {
  import opened Basics
  import opened TaskQueue
  import opened TaskRuns
  import opened TaskProofs

  // ---- Conservation ----

  /** In every reachable state each task's accepted enqueues are all accounted for; none was
      swallowed unless more than 65535 were accepted; and the queue holds exactly the tasks
      with enqueues pending. */
  lemma EnqueuesConserved(run: seq<State>, steps: seq<Step>, k: nat, x: Item)
    requires IsRun(run, steps) && k < |run| && x.Task?
    ensures Conserved(run[k].tally, run[k].pending, x)
    ensures x in run[k].queue <==> Get(run[k].pending, x) > 0
    ensures Get(run[k].tally.accepted, x) <= USHRT_MAX ==>
              Get(run[k].tally.accepted, x) ==
              Get(run[k].tally.delivered, x) + Get(run[k].tally.cancelled, x) + Get(run[k].pending, x)
  {
    InvRun(run, steps, k);
    PendingHere(run[k].queue, run[k].pending, x);
  }

  /** tq_callouts counts armed timeouts and drains in their second half, so it is zero exactly
      when there are neither. */
  lemma CalloutsCount(run: seq<State>, steps: seq<Step>, k: nat)
    requires IsRun(run, steps) && k < |run|
    ensures run[k].callouts == |run[k].armed| + |AtActiveDrains(run[k].drains)|
    ensures run[k].callouts == 0 <==>
              run[k].armed == {} && forall d :: d in run[k].drains ==> !run[k].drains[d].AtActive?
  {
    InvRun(run, steps, k);
    var st := run[k];
    assert (forall d :: d in st.drains ==> !st.drains[d].AtActive?) ==> AtActiveDrains(st.drains) == {};
    assert forall d :: d in st.drains && st.drains[d].AtActive? ==> d in AtActiveDrains(st.drains);
  }

  // ---- One execution seen by one drain ----

  /** The drain still counts execution n as running, or it is not running. */
  ghost predicate Tracks(st: State, d: nat, n: nat) {
    d in st.drains && n <= st.total && (n in ActiveStarts(st.active) ==> n in st.drains[d].running)
  }

  lemma DrainStaysOther(st: State, e: Step, d: nat)
    requires Enabled(st, e) && d in st.drains && !e.Start? && !e.Finish?
    ensures d in Apply(st, e).drains && Apply(st, e).drains[d].running == st.drains[d].running
    ensures Apply(st, e).total == st.total
  {
    hide Inserted, HintAfter, RemoveAt, HintWithout, MarkCanceling, IsCanceling, Bump, ActiveStarts, ActiveClear,
         Members;
  }

  lemma ActiveStaysOther(st: State, e: Step)
    requires Inv(st) && Enabled(st, e) && !e.Start? && !e.Finish?
    ensures ActiveStarts(Apply(st, e).active) == ActiveStarts(st.active)
  {
    if e.Cancel? || e.CancelTimeout? { MarkKeeps(st.active, e.x, st.total); }
    hide Inserted, HintAfter, RemoveAt, HintWithout, MarkCanceling, IsCanceling, Bump, ActiveStarts, ActiveClear,
         Members, AllCancel, Inv;
  }

  lemma TracksStart(st: State, w: nat, d: nat, n: nat)
    requires Inv(st) && Enabled(st, Start(w)) && Tracks(st, d, n)
    ensures Tracks(DoStart(st, w), d, n)
  {
    NextSeq(st.total);
    StartWorkers(st.active, st.total, NewBusy(st, w));
    hide ActiveStarts, Inv;
  }

  lemma TracksFinish(st: State, w: nat, d: nat, n: nat)
    requires Inv(st) && Enabled(st, Finish(w)) && Tracks(st, d, n)
    ensures Tracks(DoFinish(st, w), d, n)
  {
    var k := WorkerIndex(st.active, w);
    LeftWorkers(st.active, st.total, k);
    if st.queue != [] {
      NextSeq(st.total);
      NextWorkers(st.active, st.total, k, NewBusy(st, w));
    }
    hide ActiveStarts, Inv, HasWorker;
  }

  lemma TracksStep(st: State, e: Step, d: nat, n: nat)
    requires Inv(st) && Enabled(st, e) && Tracks(st, d, n)
    ensures Tracks(Apply(st, e), d, n)
  {
    hide Inv, ActiveStarts;
    if e.Start? { TracksStart(st, e.w, d, n); }
    else if e.Finish? { TracksFinish(st, e.w, d, n); }
    else {
      DrainStaysOther(st, e, d);
      ActiveStaysOther(st, e);
    }
  }

  lemma {:induction false} TracksRun(run: seq<State>, steps: seq<Step>, i: nat, j: nat, d: nat, n: nat)
    requires IsRun(run, steps) && i <= j < |run| && Tracks(run[i], d, n)
    ensures Tracks(run[j], d, n)
  {
    hide Tracks, Enabled, Apply, Inv;
    if i < j {
      TracksRun(run, steps, i, j - 1, d, n);
      InvRun(run, steps, j - 1);
      TracksStep(run[j - 1], steps[j - 1], d, n);
    }
  }

  /** An execution the drain tracks is over when the drain returns, or is more than 2^31 starts
      older than the drain's snapshot. */
  lemma TrackedIsOver(run: seq<State>, steps: seq<Step>, i: nat, j: nat, d: nat, n: nat)
    requires IsRun(run, steps) && i <= j < |run| && Tracks(run[i], d, n)
    requires d in run[j].drains && run[j].drains[d].Done?
    ensures n in ActiveStarts(run[j].active) ==> TooOld(run[j].drains[d].snap, n)
  {
    TracksRun(run, steps, i, j, d, n);
    InvRun(run, steps, j);
    var st := run[j];
    assert DrainOk(st.queue, st.active, st.total, d, st.drains[d]);
  }

  predicate TooOld(snap: nat, n: nat) { n <= snap && (snap - n) % TWO32 > HALF }

  // ---- taskqueue_drain_all ----

  ghost predicate Drained(run: seq<State>, steps: seq<Step>, i: nat, j: nat, d: nat) {
    && IsRun(run, steps) && i < j < |run| && steps[i] == BeginDrain(d)
    && d in run[j].drains && run[j].drains[d].Done?
  }

  /** What was running at the call is over at the return. */
  lemma DrainWaitsForRunning(run: seq<State>, steps: seq<Step>, i: nat, j: nat, d: nat, n: nat)
    requires Drained(run, steps, i, j, d) && n in ActiveStarts(run[i].active)
    ensures n in ActiveStarts(run[j].active) ==> TooOld(run[j].drains[d].snap, n)
  {
    InvRun(run, steps, i);
    var st := run[i];
    var k :| 0 <= k < |st.active| && st.active[k].start == n;
    assert WorkerOk(st.active[k], st.total);
    assert Tracks(run[i + 1], d, n) by { hide ActiveStarts, Inv; }
    TrackedIsOver(run, steps, i + 1, j, d, n);
  }

  /** x has been on the queue at every step from i to k. */
  ghost predicate StillQueued(run: seq<State>, i: nat, k: nat, x: Item) {
    k < |run| && forall m :: i <= m <= k ==> x in run[m].queue
  }

  /** At step m the item x starts as execution number n. */
  predicate StartsAs(st: State, e: Step, x: Item, n: nat) {
    (e.Start? || e.Finish?) && st.queue != [] && st.queue[0] == x && n == st.total + 1
  }

  predicate Cancels(e: Step, x: Item) { e == Cancel(x) || e == CancelTimeout(x) }

  ghost predicate Owes(st: State, d: nat, x: Item) {
    d in st.drains && st.drains[d].AtBarrier? && x in st.drains[d].owed
  }

  /** A step keeps an owed item queued and owed, or starts or cancels it. */
  lemma OwesStep(st: State, e: Step, d: nat, x: Item)
    requires Inv(st) && Enabled(st, e) && Owes(st, d, x) && x in st.queue
    requires x.Barrier? ==> x.drain == d
    ensures || (Owes(Apply(st, e), d, x) && x in Apply(st, e).queue)
            || (x.Task? && Cancels(e, x))
            || (StartsAs(st, e, x, st.total + 1) && Tracks(Apply(st, e), d, st.total + 1))
  {
    assert DrainOk(st.queue, st.active, st.total, d, st.drains[d]);
    PendingHere(st.queue, st.pending, x);
    if e.Start? { OwesStart(st, e.w, d, x); }
    else if e.Finish? { OwesFinish(st, e.w, d, x); }
    else { OwesOther(st, e, d, x); }
  }

  lemma OwesStart(st: State, w: nat, d: nat, x: Item)
    requires Inv(st) && Enabled(st, Start(w)) && Owes(st, d, x) && x in st.queue
    ensures if st.queue[0] == x then Tracks(DoStart(st, w), d, st.total + 1)
            else Owes(DoStart(st, w), d, x) && x in DoStart(st, w).queue
  {
    HeadRemoved(st.queue, st.hint);
    hide ActiveStarts, Inv, HintWithout, Before;
  }

  lemma OwesFinish(st: State, w: nat, d: nat, x: Item)
    requires Inv(st) && Enabled(st, Finish(w)) && Owes(st, d, x) && x in st.queue
    ensures if st.queue[0] == x then Tracks(DoFinish(st, w), d, st.total + 1)
            else Owes(DoFinish(st, w), d, x) && x in DoFinish(st, w).queue
  {
    hide ActiveStarts, HintWithout, Before, HasWorker, Distinct, Descending;
    HeadRemoved(st.queue, st.hint);
    hide Inv;
  }

  lemma OwesEnqueue(st: State, y: Item, fp: bool, fc: bool, d: nat, x: Item)
    requires Inv(st) && IsTask(y) && Owes(st, d, x) && x in st.queue
    ensures Owes(DoEnqueue(st, y, fp, fc), d, x) && x in DoEnqueue(st, y, fp, fc).queue
  {
    PendingHere(st.queue, st.pending, y);
    if y !in st.queue { QueuedMembers(st.queue, st.hint, y); }
    hide Inserted, HintAfter, IsCanceling, Bump, Inv, Before;
  }

  lemma OwesCancel(st: State, y: Item, d: nat, x: Item)
    requires Inv(st) && IsTask(y) && Owes(st, d, x) && x in st.queue && x != y
    ensures Owes(DoCancel(st, y), d, x) && x in DoCancel(st, y).queue
  {
    if y in st.queue { RemovedMembers(st.queue, st.hint, IndexOf(st.queue, y)); }
    hide RemoveAt, HintWithout, MarkCanceling, Bump, Inv, Before;
  }

  lemma OwesOther(st: State, e: Step, d: nat, x: Item)
    requires Inv(st) && Enabled(st, e) && !e.Start? && !e.Finish? && Owes(st, d, x) && x in st.queue
    requires Barrier(d) in st.queue
    ensures (Owes(Apply(st, e), d, x) && x in Apply(st, e).queue) || (x.Task? && Cancels(e, x))
  {
    PendingHere(st.queue, st.pending, Barrier(d));
    if e.Enqueue? {
      OwesEnqueue(st, e.x, e.failIfPending, e.failIfCanceling, d, x);
    } else if e.Fire? {
      DisarmedInv(st, e.x);
      OwesEnqueue(Disarmed(st, e.x), e.x, false, false, d, x);
    } else if e.Cancel? || e.CancelTimeout? {
      if x != e.x { OwesCancel(st, e.x, d, x); }
    }
    hide DoEnqueue, DoCancel, ActiveStarts, ActiveClear, Inv;
  }

  /** x was queued until step m, which cancelled it or started it; and its execution is over
      in the state st' where the drain returned, or too old for the snapshot. */
  ghost predicate Served(run: seq<State>, steps: seq<Step>, i: nat, m: nat, x: Item, st': State, snap: nat) {
    && i < m < |steps| && m < |run| && StillQueued(run, i, m, x)
    && (|| (x.Task? && Cancels(steps[m], x))
        || (&& StartsAs(run[m], steps[m], x, run[m].total + 1)
            && (run[m].total + 1 in ActiveStarts(st'.active) ==> TooOld(snap, run[m].total + 1))))
  }

  lemma {:induction false} OwesUntil(run: seq<State>, steps: seq<Step>, i: nat, k: nat, j: nat, d: nat, x: Item)
    returns (m: nat)
    requires IsRun(run, steps) && i < k <= j < |run| && d in run[j].drains && run[j].drains[d].Done?
    requires StillQueued(run, i, k, x) && Owes(run[k], d, x) && (x.Barrier? ==> x.drain == d)
    ensures m < j && Served(run, steps, i, m, x, run[j], run[j].drains[d].snap)
    decreases j - k
  {
    hide Apply, Enabled, Inv, Cancels, ActiveStarts, Tracks;
    InvRun(run, steps, k);
    assert k < j;
    OwesStep(run[k], steps[k], d, x);
    if Owes(run[k + 1], d, x) && x in run[k + 1].queue {
      m := OwesUntil(run, steps, i, k + 1, j, d, x);
    } else {
      m := k;
      if !(x.Task? && Cancels(steps[k], x)) { TrackedIsOver(run, steps, k + 1, j, d, run[k].total + 1); }
    }
  }

  lemma BeginOwes(st: State, d: nat, x: Item)
    requires Inv(st) && d !in st.drains && (x in st.queue || (st.queue != [] && x == Barrier(d)))
    ensures Owes(DoBeginDrain(st, d), d, x) && x in DoBeginDrain(st, d).queue
  {
  }

  /** Every item queued at the call was cancelled or started before the return, and its
      execution is over. */
  lemma DrainWaitsForQueued(run: seq<State>, steps: seq<Step>, i: nat, j: nat, d: nat, x: Item) returns (m: nat)
    requires Drained(run, steps, i, j, d) && x in run[i].queue && x.Task?
    ensures m < j && Served(run, steps, i, m, x, run[j], run[j].drains[d].snap)
  {
    InvRun(run, steps, i);
    BeginOwes(run[i], d, x);
    hide Owes, Served, DoBeginDrain, Inv;
    m := OwesUntil(run, steps, i, i + 1, j, d, x);
  }

  // ---- The barrier on the drainer's stack ----

  /** Whoever runs a barrier, its drain waits for that execution. */
  ghost predicate BarriersTracked(active: seq<Busy>, drains: map<nat, Drain>) {
    forall i :: 0 <= i < |active| && active[i].running.Barrier? ==>
      active[i].running.drain in drains && active[i].start in drains[active[i].running.drain].running
  }

  lemma BarriersStart(st: State, w: nat)
    requires Inv(st) && Enabled(st, Start(w)) && BarriersTracked(st.active, st.drains)
    ensures BarriersTracked(DoStart(st, w).active, DoStart(st, w).drains)
  {
    var st' := DoStart(st, w);
    if st.queue[0].Barrier? { BarrierOwed(st); }
    hide Inv, HintWithout, ActiveStarts;
    forall i | 0 <= i < |st'.active| && st'.active[i].running.Barrier?
      ensures st'.active[i].running.drain in st'.drains
              && st'.active[i].start in st'.drains[st'.active[i].running.drain].running
    {
      assert i > 0 ==> st'.active[i] == st.active[i - 1];
    }
  }

  lemma BarrierOwed(st: State)
    requires Inv(st) && st.queue != [] && st.queue[0].Barrier?
    ensures Owes(st, st.queue[0].drain, st.queue[0])
  {
    var d := st.queue[0].drain;
    assert Barrier(d) in st.queue;
    assert DrainOk(st.queue, st.active, st.total, d, st.drains[d]);
  }

  ghost predicate BarrierTracked(b: Busy, drains: map<nat, Drain>) {
    b.running.Barrier? ==> b.running.drain in drains && b.start in drains[b.running.drain].running
  }

  /** A finished execution takes no other with it. */
  lemma BarriersLeft(active: seq<Busy>, total: nat, drains: map<nat, Drain>, k: nat, i: nat)
    requires WorkersOk(active, total) && BarriersTracked(active, drains)
    requires k < |active| && i < |active| && i != k
    ensures BarrierTracked(active[i], AllFinish(drains, active[k].start))
  {
  }

  lemma BarrierKept(b: Busy, drains: map<nat, Drain>, x: Item, n: nat)
    requires BarrierTracked(b, drains)
    ensures BarrierTracked(b, AllStart(drains, x, n))
  {
  }

  lemma BarriersFrom(active: seq<Busy>, drains: map<nat, Drain>)
    requires forall i :: 0 <= i < |active| ==> BarrierTracked(active[i], drains)
    ensures BarriersTracked(active, drains)
  {
  }

  lemma BarriersFinish(st: State, w: nat)
    requires Inv(st) && Enabled(st, Finish(w)) && BarriersTracked(st.active, st.drains)
    ensures BarriersTracked(DoFinish(st, w).active, DoFinish(st, w).drains)
  {
    hide QueueOk, BarriersTracked, WorkersOk, HasWorker, HintWithout;
    if st.queue != [] && st.queue[0].Barrier? { BarrierOwed(st); }
    assert WorkersOk(st.active, st.total);
    var k := WorkerIndex(st.active, w);
    var st1, st' := Left(st, w), DoFinish(st, w);
    if st.queue == [] {
      forall i | 0 <= i < |st'.active| ensures BarrierTracked(st'.active[i], st'.drains) {
        BarriersLeft(st.active, st.total, st.drains, k, if i < k then i else i + 1);
      }
    } else {
      BarrierStarted(st, st1.drains, w);
      hide BarrierTracked;
      forall i | 0 <= i < |st'.active| ensures BarrierTracked(st'.active[i], st'.drains) {
        if i != k {
          BarriersLeft(st.active, st.total, st.drains, k, i);
          BarrierKept(st.active[i], st1.drains, st.queue[0], st.total + 1);
        }
      }
    }
    BarriersFrom(st'.active, st'.drains);
  }

  lemma BarrierStarted(st: State, drains: map<nat, Drain>, w: nat)
    requires st.queue != [] && (st.queue[0].Barrier? ==> Owes(st, st.queue[0].drain, st.queue[0]))
    requires forall d :: d in st.drains ==> d in drains && (st.drains[d].AtBarrier? ==>
               drains[d].AtBarrier? && drains[d].owed == st.drains[d].owed)
    ensures BarrierTracked(NewBusy(st, w), AllStart(drains, st.queue[0], st.total + 1))
  {
  }

  lemma BarriersMark(active: seq<Busy>, x: Item, drains: map<nat, Drain>)
    requires BarriersTracked(active, drains)
    ensures BarriersTracked(MarkCanceling(active, x), drains)
  {
    var active' := MarkCanceling(active, x);
    assert forall i :: 0 <= i < |active| ==>
      active'[i].running == active[i].running && active'[i].start == active[i].start;
  }

  lemma BarriersOther(st: State, e: Step)
    requires Enabled(st, e) && !e.Start? && !e.Finish? && BarriersTracked(st.active, st.drains)
    ensures BarriersTracked(Apply(st, e).active, Apply(st, e).drains)
  {
    if e.Cancel? || e.CancelTimeout? { BarriersMark(st.active, e.x, st.drains); }
    forall d | d in st.drains ensures d in Apply(st, e).drains
                                      && Apply(st, e).drains[d].running == st.drains[d].running
    {
      DrainStaysOther(st, e, d);
    }
    hide Inserted, HintAfter, RemoveAt, HintWithout, MarkCanceling, IsCanceling, Bump, ActiveStarts, ActiveClear,
         Members, AllCancel;
  }

  lemma {:induction false} BarriersRun(run: seq<State>, steps: seq<Step>, k: nat)
    requires IsRun(run, steps) && k < |run|
    ensures BarriersTracked(run[k].active, run[k].drains)
  {
    if k > 0 {
      BarriersRun(run, steps, k - 1);
      InvRun(run, steps, k - 1);
      hide Inv, Apply, BarriersTracked;
      var st, e := run[k - 1], steps[k - 1];
      if e.Start? { BarriersStart(st, e.w); }
      else if e.Finish? { BarriersFinish(st, e.w); }
      else { BarriersOther(st, e); }
    }
  }

  /** When a drain has returned, no worker holds the barrier that lived on its stack, unless it
      started more than 2^31 starts before the snapshot. */
  lemma BarrierIsGone(run: seq<State>, steps: seq<Step>, j: nat, d: nat, i: nat)
    requires IsRun(run, steps) && j < |run| && d in run[j].drains && run[j].drains[d].Done?
    requires i < |run[j].active| && run[j].active[i].running == Barrier(d)
    ensures TooOld(run[j].drains[d].snap, run[j].active[i].start)
  {
    BarriersRun(run, steps, j);
    InvRun(run, steps, j);
    var st := run[j];
    assert DrainOk(st.queue, st.active, st.total, d, st.drains[d]);
  }

  // ---- New tasks and the barrier ----

  /** A new task lands ahead of a queued barrier exactly when the scan starts ahead of the
      barrier and meets a task of lower priority there. */
  lemma PassesBarrier(q: seq<Item>, hint: Option<Item>, x: Item, b: nat)
    requires QueueOk(q, hint) && IsTask(x) && x !in q && b < |q| && q[b].Barrier?
    ensures Before(Inserted(q, hint, x), x, q[b]) <==>
              !AtTail(q, x) && exists j :: ScanStart(q, hint, x) <= j < b && Prio(q[j]) < Prio(x)
  {
    var k := InsertPos(q, hint, x);
    assert k <= b <==> !AtTail(q, x) && exists j :: ScanStart(q, hint, x) <= j < b && Prio(q[j]) < Prio(x);
    InsertedBefore(q, k, x, b);
  }

  lemma InsertedBefore(q: seq<Item>, k: nat, x: Item, b: nat)
    requires Distinct(q) && x !in q && k <= |q| && b < |q|
    ensures Before(InsertAt(q, k, x), x, q[b]) <==> k <= b
  {
    var r := InsertAt(q, k, x);
    assert r[k] == x && (forall i :: 0 <= i < |r| && i != k ==> r[i] != x);
    var c := if b < k then b else b + 1;
    assert r[c] == q[b] && (forall i :: 0 <= i < |r| && i != c ==> r[i] != q[b]);
    assert Before(r, x, q[b]) <==> k < c;
  }
}
