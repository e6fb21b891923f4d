/** A drain that returns too early: the 32-bit comparison misjudges a very old execution. */
module TaskScenario {
  import opened Basics
  import opened TaskQueue
  import opened TaskRuns
  import opened TaskProofs
  import opened TaskTheorems

  const SLOW := Task(0, 0)
  const QUICK := Task(1, 0)

  /** n executions have started, those in act are still running, and nothing else is going on. */
  ghost predicate Resting(st: State, act: seq<Busy>, n: nat) {
    && st.queue == [] && st.hint == None && st.active == act && st.total == n && st.seqNo == n % TWO32
    && st.drains == map[] && Get(st.pending, QUICK) == 0 && Get(st.pending, SLOW) == 0
  }

  /** At most worker 0 is busy. */
  ghost predicate FewBusy(act: seq<Busy>) { act == [] || (|act| == 1 && act[0].worker == 0) }

  lemma Extend(run: seq<State>, steps: seq<Step>, e: Step)
    requires IsRun(run, steps) && Enabled(run[|steps|], e)
    ensures IsRun(run + [Apply(run[|steps|], e)], steps + [e])
  {
  }

  lemma OneEnqueued(st: State, act: seq<Busy>, n: nat, x: Item)
    requires Resting(st, act, n) && x in {SLOW, QUICK}
    ensures Enabled(st, Enqueue(x, false, false))
    ensures var st' := Apply(st, Enqueue(x, false, false));
            st' == Queued(st, x) && st'.queue == [x] && st'.hint == None
  {
  }

  lemma OneStarted(st: State, act: seq<Busy>, n: nat, x: Item, w: nat)
    requires st.queue == [x] && st.hint == None && st.active == act && st.total == n && st.seqNo == n % TWO32
    requires st.drains == map[]
    requires x in {SLOW, QUICK} && !HasWorker(act, w) && (x != QUICK ==> Get(st.pending, QUICK) == 0)
    requires (x != SLOW ==> Get(st.pending, SLOW) == 0)
    ensures Enabled(st, Start(w))
    ensures Resting(Apply(st, Start(w)), [Busy(w, x, (n + 1) % TWO32, false, n + 1)] + act, n + 1)
  {
    NextSeq(n);
    assert AllStart(st.drains, x, n + 1) == map[];
  }

  lemma OneFinished(st: State, act: seq<Busy>, b: Busy, n: nat)
    requires Resting(st, [b] + act, n) && b.worker == 1 && FewBusy(act)
    ensures Enabled(st, Finish(1)) && Resting(Apply(st, Finish(1)), act, n)
  {
    assert st.active[0].worker == 1;
    assert AllFinish(st.drains, b.start) == map[];
    assert ([b] + act)[..0] + ([b] + act)[1..] == act;
  }

  /** A task starts on an idle worker. */
  lemma Begin(run: seq<State>, steps: seq<Step>, act: seq<Busy>, n: nat, x: Item, w: nat)
    returns (run': seq<State>, steps': seq<Step>)
    requires IsRun(run, steps) && Resting(run[|steps|], act, n) && x in {SLOW, QUICK} && !HasWorker(act, w)
    ensures IsRun(run', steps') && Resting(run'[|steps'|], [Busy(w, x, (n + 1) % TWO32, false, n + 1)] + act, n + 1)
  {
    var e1, e2 := Enqueue(x, false, false), Start(w);
    var st := run[|steps|];
    var st1 := Apply(st, e1);
    OneEnqueued(st, act, n, x);
    OneStarted(st1, act, n, x, w);
    var st2 := Apply(st1, e2);
    hide Apply, Enabled, Resting;
    Extend(run, steps, e1);
    Extend(run + [st1], steps + [e1], e2);
    run', steps' := run + [st1] + [st2], steps + [e1] + [e2];
  }

  /** One more short task comes and goes. */
  lemma OneMore(run: seq<State>, steps: seq<Step>, act: seq<Busy>, n: nat) returns (run': seq<State>, steps': seq<Step>)
    requires IsRun(run, steps) && Resting(run[|steps|], act, n) && FewBusy(act)
    ensures IsRun(run', steps') && Resting(run'[|steps'|], act, n + 1)
  {
    hide Resting;
    run', steps' := Begin(run, steps, act, n, QUICK, 1);
    var st := run'[|steps'|];
    OneFinished(st, act, Busy(1, QUICK, (n + 1) % TWO32, false, n + 1), n + 1);
    Extend(run', steps', Finish(1));
    run', steps' := run' + [Apply(st, Finish(1))], steps' + [Finish(1)];
  }

  lemma {:induction false} ManyMore(run: seq<State>, steps: seq<Step>, act: seq<Busy>, n: nat, k: nat)
    returns (run': seq<State>, steps': seq<Step>)
    requires IsRun(run, steps) && Resting(run[|steps|], act, n) && FewBusy(act)
    ensures IsRun(run', steps') && Resting(run'[|steps'|], act, n + k)
    decreases k
  {
    hide Resting, FewBusy;
    if k == 0 { run', steps' := run, steps; } else {
      run', steps' := OneMore(run, steps, act, n);
      run', steps' := ManyMore(run', steps', act, n + 1, k - 1);
    }
  }

  /** Worker 0 is still inside execution n when execution snap has come and gone. */
  lemma StuckSince(n: nat, snap: nat) returns (run: seq<State>, steps: seq<Step>)
    requires 1 <= n <= snap
    ensures IsRun(run, steps) && Resting(run[|steps|], [Busy(0, SLOW, n % TWO32, false, n)], snap)
  {
    var st := State([], None, map[], [], 0, 0, {}, map[], 0, Tally(map[], map[], map[], map[]));
    assert IsRun([st], []) && Resting(st, [], 0);
    hide IsRun, Resting;
    run, steps := ManyMore([st], [], [], 0, n - 1);
    run, steps := Begin(run, steps, [], n - 1, SLOW, 0);
    var act := [Busy(0, SLOW, n % TWO32, false, n)];
    assert [Busy(0, SLOW, (n - 1 + 1) % TWO32, false, n - 1 + 1)] + [] == act;
    run, steps := ManyMore(run, steps, act, n, snap - n);
  }

  lemma DrainPasses(st: State, n: nat, snap: nat)
    requires Resting(st, [Busy(0, SLOW, n % TWO32, false, n)], snap) && TooOld(snap, n)
    ensures Enabled(st, BeginDrain(0))
    ensures var st1 := Apply(st, BeginDrain(0));
            && Enabled(st1, PassActive(0))
            && var st2 := Apply(st1, PassActive(0));
               && 0 in st2.drains && st2.drains[0].Done? && st2.drains[0].snap == snap && st2.active == st.active
  {
    NotAfterIsAge(n, snap);
    var st1 := Apply(st, BeginDrain(0));
    assert st1.drains[0].AtActive? && st1.drains[0].snap == snap;
    assert ActiveClear(st1.active, snap);
  }

  /** The condition of TrackedIsOver is exact: for every execution and every snapshot to which it looks
      too old, some drain with that snapshot returns while that execution is still running. */
  lemma DrainReturnsEarly(n: nat, snap: nat) returns (run: seq<State>, steps: seq<Step>, i: nat)
    requires n >= 1 && TooOld(snap, n)
    ensures Drained(run, steps, i, i + 2, 0) && run[i].total == snap && run[i + 2].drains[0].snap == snap
    ensures n in ActiveStarts(run[i].active) && n in ActiveStarts(run[i + 2].active)
  {
    run, steps := StuckSince(n, snap);
    i := |steps|;
    var st := run[i];
    assert st.active[0].start == n;
    DrainPasses(st, n, snap);
    var st1 := Apply(st, BeginDrain(0));
    var st2 := Apply(st1, PassActive(0));
    hide Apply, Enabled;
    Extend(run, steps, BeginDrain(0));
    Extend(run + [st1], steps + [BeginDrain(0)], PassActive(0));
    run, steps := run + [st1] + [st2], steps + [BeginDrain(0)] + [PassActive(0)];
  }

  /** Such a snapshot exists: 2^31 + 1 starts after the first. */
  lemma EarlyReturnExists() returns (run: seq<State>, steps: seq<Step>, i: nat, n: nat)
    ensures Drained(run, steps, i, i + 2, 0)
    ensures n in ActiveStarts(run[i].active) && n in ActiveStarts(run[i + 2].active)
  {
    n := 1;
    run, steps, i := DrainReturnsEarly(1, HALF + 2);
  }

  // ---- A new task in front of the barrier ----

  const OLD := Task(2, 10)
  const NEW5 := Task(3, 5)
  const NEW8 := Task(4, 8)
  const NEW20 := Task(5, 20)

  lemma AddEnqueue(run: seq<State>, steps: seq<Step>, x: Item) returns (st': State)
    requires IsRun(run, steps) && IsTask(x) && Get(run[|steps|].pending, x) == 0
    ensures IsRun(run + [st'], steps + [Enqueue(x, false, false)])
    ensures var st := run[|steps|];
            && st'.queue == Inserted(st.queue, st.hint, x) && st'.hint == HintAfter(st.queue, st.hint, x)
            && st'.drains == st.drains && forall y :: y != x ==> Get(st'.pending, y) == Get(st.pending, y)
  {
    st' := Apply(run[|steps|], Enqueue(x, false, false));
    Extend(run, steps, Enqueue(x, false, false));
  }

  lemma AddDrain(run: seq<State>, steps: seq<Step>) returns (st': State)
    requires IsRun(run, steps) && run[|steps|].queue == [OLD] && 0 !in run[|steps|].drains
    ensures IsRun(run + [st'], steps + [BeginDrain(0)])
    ensures var st := run[|steps|];
            && st'.queue == [OLD, Barrier(0)] && st'.hint == Some(Barrier(0))
            && forall y: Item :: y.Task? ==> Get(st'.pending, y) == Get(st.pending, y)
  {
    st' := Apply(run[|steps|], BeginDrain(0));
    Extend(run, steps, BeginDrain(0));
  }

  /** Where the four insertions go. */
  lemma Placements()
    ensures Inserted([], None, OLD) == [OLD] && HintAfter([], None, OLD) == None
    ensures var q, h := [OLD, Barrier(0)], Some(Barrier(0));
            Inserted(q, h, NEW5) == [OLD, Barrier(0), NEW5] && HintAfter(q, h, NEW5) == h
    ensures var q, h := [OLD, Barrier(0), NEW5], Some(Barrier(0));
            Inserted(q, h, NEW8) == [OLD, Barrier(0), NEW8, NEW5] && HintAfter(q, h, NEW8) == Some(NEW8)
    ensures Inserted([OLD, Barrier(0), NEW8, NEW5], Some(NEW8), NEW20) == [NEW20, OLD, Barrier(0), NEW8, NEW5]
  {
    assert ScanStart([OLD, Barrier(0), NEW5], Some(Barrier(0)), NEW8) == 2;
    assert ScanFrom([OLD, Barrier(0), NEW5], NEW8, 2) == 2;
    assert ScanFrom([OLD, Barrier(0), NEW8, NEW5], NEW20, 0) == 0;
  }

  ghost predicate Fresh(st: State) { forall y: Item :: y.Task? && y != OLD ==> Get(st.pending, y) == 0 }

  lemma BarrierStands() returns (run: seq<State>, steps: seq<Step>)
    ensures IsRun(run, steps) && |steps| == 2 && steps[1] == BeginDrain(0) && Fresh(run[2])
    ensures run[2].queue == [OLD, Barrier(0)] && run[2].hint == Some(Barrier(0))
  {
    Placements();
    hide Inserted, HintAfter;
    var st := State([], None, map[], [], 0, 0, {}, map[], 0, Tally(map[], map[], map[], map[]));
    var st1 := AddEnqueue([st], [], OLD);
    var st2 := AddDrain([st] + [st1], [] + [Enqueue(OLD, false, false)]);
    run := [st] + [st1] + [st2];
    steps := [] + [Enqueue(OLD, false, false)] + [BeginDrain(0)];
  }

  lemma ThreeMore(run: seq<State>, steps: seq<Step>) returns (st: State, st': State, st'': State)
    requires IsRun(run, steps) && Fresh(run[|steps|])
    requires run[|steps|].queue == [OLD, Barrier(0)] && run[|steps|].hint == Some(Barrier(0))
    ensures IsRun(run + [st] + [st'] + [st''],
                  steps + [Enqueue(NEW5, false, false)] + [Enqueue(NEW8, false, false)] + [Enqueue(NEW20, false,
                                                                                                   false)])
    ensures st''.queue == [NEW20, OLD, Barrier(0), NEW8, NEW5]
  {
    Placements();
    hide Inserted, HintAfter, IsRun, Get, IsTask;
    assert |run| == |steps| + 1 by { Lengths(run, steps); }
    TasksOk();
    st := AddEnqueue(run, steps, NEW5);
    st' := AddEnqueue(run + [st], steps + [Enqueue(NEW5, false, false)], NEW8);
    st'' := AddEnqueue(run + [st] + [st'], steps + [Enqueue(NEW5, false, false)] + [Enqueue(NEW8, false, false)],
                       NEW20);
  }

  lemma Lengths(run: seq<State>, steps: seq<Step>)
    requires IsRun(run, steps)
    ensures |run| == |steps| + 1
  {
  }

  lemma TasksOk()
    ensures IsTask(NEW5) && IsTask(NEW8) && IsTask(NEW20)
  {
  }

  /** A task enqueued after a drain began runs ahead of the drain's barrier. */
  lemma NewTaskPasses() returns (run: seq<State>, steps: seq<Step>)
    ensures IsRun(run, steps) && |steps| == 5
    ensures steps[1] == BeginDrain(0) && steps[4] == Enqueue(NEW20, false, false)
    ensures run[5].queue == [NEW20, OLD, Barrier(0), NEW8, NEW5]
  {
    run, steps := BarrierStands();
    var st, st', st'' := ThreeMore(run, steps);
    run := run + [st] + [st'] + [st''];
    steps := steps + [Enqueue(NEW5, false, false)] + [Enqueue(NEW8, false, false)] + [Enqueue(NEW20, false, false)];
  }
}
