/** Interleavings of enqueuers, cancellers, workers, timers and drains. A step is what one
    thread does between taking the queue mutex and releasing it. */
module TaskRuns {
  import opened Basics
  import opened TaskQueue

  const HALF := 0x8000_0000

  /** A call of taskqueue_drain_all. owed are the tasks that were queued at the call and have
      neither started nor been cancelled, and the barrier until it starts; running the start numbers
      of the executions it must see finished; snap how many tasks had started when it took its
      sequence snapshot. */
  datatype Drain =
    | AtBarrier(owed: set<Item>, running: set<nat>)
    | AtActive(snap: nat, running: set<nat>)
    | Done(snap: nat, running: set<nat>)

  /** Per task, the enqueues accepted, handed to the handler, reported by cancel, and
      swallowed by a saturated count. */
  datatype Tally = Tally(accepted: map<Item, nat>, delivered: map<Item, nat>,
                         cancelled: map<Item, nat>, lost: map<Item, nat>)

  /** The queue's fields, and history: how many tasks ever started, and the tally. */
  datatype State = State(
    queue: seq<Item>, hint: Option<Item>, pending: map<Item, nat>, active: seq<Busy>, seqNo: nat,
    callouts: int, armed: set<Item>, drains: map<nat, Drain>, total: nat, tally: Tally)

  datatype Step =
    | Enqueue(x: Item, failIfPending: bool, failIfCanceling: bool)
    | Cancel(x: Item)
    | Start(w: nat)
    | Finish(w: nat)
    | BeginDrain(d: nat)
    | PassBarrier(d: nat)
    | PassActive(d: nat)
    | Arm(x: Item)
    | Fire(x: Item)
    | CancelTimeout(x: Item)

  function Bump(m: map<Item, nat>, x: Item, n: nat): map<Item, nat> { m[x := Get(m, x) + n] }

  predicate HasWorker(active: seq<Busy>, w: nat) { exists i :: 0 <= i < |active| && active[i].worker == w }

  function WorkerIndex(active: seq<Busy>, w: nat): (k: nat)
    requires HasWorker(active, w)
    ensures k < |active| && active[k].worker == w
  {
    if active[0].worker == w then 0 else
    assert HasWorker(active[1..], w) by {
      var i :| 0 <= i < |active| && active[i].worker == w;
      assert active[1..][i - 1].worker == w;
    }
    1 + WorkerIndex(active[1..], w)
  }

  predicate IsTask(x: Item) { x.Task? && x.priority <= UCHAR_MAX }

  /** (int)(a - s) <= 0 on 32-bit unsigned a and s. */
  predicate NotAfter(a: nat, s: nat) {
    var diff := (a - s) % TWO32; diff == 0 || diff >= HALF
  }

  predicate ActiveClear(active: seq<Busy>, snap: nat) {
    forall i :: 0 <= i < |active| ==> !NotAfter(active[i].seqNo, snap % TWO32)
  }

  function ActiveStarts(active: seq<Busy>): set<nat> {
    set i | 0 <= i < |active| :: active[i].start
  }

  function Members(q: seq<Item>): set<Item> { set x | x in q }

  // ---- What a step does to the drains in progress ----

  function DrainStarts(r: Drain, x: Item, n: nat): Drain {
    if r.AtBarrier? && x in r.owed then AtBarrier(r.owed - {x}, r.running + {n}) else r
  }

  function DrainFinishes(r: Drain, n: nat): Drain {
    r.(running := r.running - {n})
  }

  function DrainCancels(r: Drain, x: Item): Drain {
    if r.AtBarrier? then r.(owed := r.owed - {x}) else r
  }

  function AllCancel(m: map<nat, Drain>, x: Item): map<nat, Drain> { map d | d in m :: DrainCancels(m[d], x) }

  function AllStart(m: map<nat, Drain>, x: Item, n: nat): map<nat, Drain> { map d | d in m :: DrainStarts(m[d], x, n) }

  function AllFinish(m: map<nat, Drain>, n: nat): map<nat, Drain> { map d | d in m :: DrainFinishes(m[d], n) }

  // ---- Steps ----

  predicate Enabled(st: State, e: Step) {
    match e
    case Enqueue(x, _, _) => IsTask(x)
    case Cancel(x) => IsTask(x)
    case Start(w) => st.queue != [] && !HasWorker(st.active, w)
    case Finish(w) => HasWorker(st.active, w)
    case BeginDrain(d) => d !in st.drains
    case PassBarrier(d) => d in st.drains && st.drains[d].AtBarrier? && Get(st.pending, Barrier(d)) == 0
    case PassActive(d) => d in st.drains && st.drains[d].AtActive? && ActiveClear(st.active, st.drains[d].snap)
    case Arm(x) => IsTask(x)
    case Fire(x) => IsTask(x) && x in st.armed
    case CancelTimeout(x) => IsTask(x)
  }

  function Accept(t: Tally, x: Item): Tally { t.(accepted := Bump(t.accepted, x, 1)) }

  /** One more enqueue of a task already pending; a full count swallows it. */
  function CountedAgain(st: State, x: Item): State {
    if Get(st.pending, x) < USHRT_MAX
    then st.(pending := Bump(st.pending, x, 1), tally := Accept(st.tally, x))
    else st.(tally := Accept(st.tally, x).(lost := Bump(st.tally.lost, x, 1)))
  }

  function Queued(st: State, x: Item): State {
    st.(queue := Inserted(st.queue, st.hint, x), hint := HintAfter(st.queue, st.hint, x),
        pending := st.pending[x := 1], tally := Accept(st.tally, x))
  }

  function DoEnqueue(st: State, x: Item, failIfPending: bool, failIfCanceling: bool): State {
    if failIfCanceling && IsCanceling(st.active, x) then st
    else if Get(st.pending, x) > 0 then if failIfPending then st else CountedAgain(st, x)
    else Queued(st, x)
  }

  function DoCancel(st: State, x: Item): State {
    var st1 := st.(active := MarkCanceling(st.active, x));
    if Get(st.pending, x) > 0 && x in st.queue
    then st1.(queue := RemoveAt(st.queue, IndexOf(st.queue, x)), hint := HintWithout(st.hint, x),
              pending := st.pending[x := 0],
              tally := st.tally.(cancelled := Bump(st.tally.cancelled, x, Get(st.pending, x))),
              drains := AllCancel(st.drains, x))
    else st1
  }

  /** The head leaves the queue and starts as execution number total + 1. */
  function Taken(st: State): State
    requires st.queue != []
  {
    var x := st.queue[0];
    st.(queue := st.queue[1..], hint := HintWithout(st.hint, x), pending := st.pending[x := 0],
        seqNo := (st.seqNo + 1) % TWO32, total := st.total + 1,
        tally := st.tally.(delivered := Bump(st.tally.delivered, x, Get(st.pending, x))),
        drains := AllStart(st.drains, x, st.total + 1))
  }

  function NewBusy(st: State, w: nat): Busy
    requires st.queue != []
  {
    Busy(w, st.queue[0], (st.seqNo + 1) % TWO32, false, st.total + 1)
  }

  function DoStart(st: State, w: nat): State
    requires st.queue != []
  {
    Taken(st).(active := [NewBusy(st, w)] + st.active)
  }

  /** The handler of worker w returned and w leaves the list of active workers. */
  function Left(st: State, w: nat): State
    requires HasWorker(st.active, w)
  {
    var k := WorkerIndex(st.active, w);
    st.(active := st.active[..k] + st.active[k + 1..], drains := AllFinish(st.drains, st.active[k].start))
  }

  /** The handler returned: the worker takes the next task, or leaves when there is none. */
  function DoFinish(st: State, w: nat): State
    requires HasWorker(st.active, w)
  {
    var st1 := Left(st, w);
    if st.queue == [] then st1
    else Taken(st1).(active := st.active[WorkerIndex(st.active, w) := NewBusy(st, w)])
  }

  /** The second half of a drain, entered with the mutex held. */
  function EnterActive(st: State, d: nat, running: set<nat>): State {
    if st.active == [] then st.(drains := st.drains[d := Done(st.total, running)])
    else st.(drains := st.drains[d := AtActive(st.total, running)], callouts := st.callouts + 1)
  }

  function DoBeginDrain(st: State, d: nat): State {
    if st.queue == [] then EnterActive(st, d, ActiveStarts(st.active))
    else st.(queue := st.queue + [Barrier(d)], hint := Some(Barrier(d)), pending := st.pending[Barrier(d) := 1],
             drains := st.drains[d := AtBarrier(Members(st.queue) + {Barrier(d)}, ActiveStarts(st.active))])
  }

  function DoPassActive(st: State, d: nat): State
    requires d in st.drains && st.drains[d].AtActive?
  {
    st.(drains := st.drains[d := Done(st.drains[d].snap, st.drains[d].running)], callouts := st.callouts - 1)
  }

  function Disarmed(st: State, x: Item): State {
    if x in st.armed then st.(armed := st.armed - {x}, callouts := st.callouts - 1) else st
  }

  function Apply(st: State, e: Step): State
    requires Enabled(st, e)
  {
    match e
    case Enqueue(x, fp, fc) => DoEnqueue(st, x, fp, fc)
    case Cancel(x) => DoCancel(st, x)
    case Start(w) => DoStart(st, w)
    case Finish(w) => DoFinish(st, w)
    case BeginDrain(d) => DoBeginDrain(st, d)
    case PassBarrier(d) => EnterActive(st, d, st.drains[d].running)
    case PassActive(d) => DoPassActive(st, d)
    case Arm(x) => if x in st.armed then st else st.(armed := st.armed + {x}, callouts := st.callouts + 1)
    case Fire(x) => DoEnqueue(Disarmed(st, x), x, false, false)
    case CancelTimeout(x) => Disarmed(DoCancel(st, x), x)
  }

  ghost predicate Initial(st: State) {
    && st.queue == [] && st.hint == None && st.pending == map[] && st.active == [] && st.seqNo == 0
    && st.callouts == 0 && st.armed == {} && st.drains == map[] && st.total == 0
    && st.tally == Tally(map[], map[], map[], map[])
  }

  ghost predicate IsRun(run: seq<State>, steps: seq<Step>) {
    && |run| == |steps| + 1 && Initial(run[0])
    && forall i :: 0 <= i < |steps| ==> Enabled(run[i], steps[i]) && run[i + 1] == Apply(run[i], steps[i])
  }

  // ---- The invariant ----

  ghost predicate WorkerOk(b: Busy, total: nat) { 1 <= b.start <= total && b.seqNo == b.start % TWO32 }

  ghost predicate WorkersOk(active: seq<Busy>, total: nat) {
    && (forall i :: 0 <= i < |active| ==> WorkerOk(active[i], total))
    && (forall i, j :: 0 <= i < j < |active| ==>
          active[i].worker != active[j].worker && active[i].start != active[j].start)
  }

  ghost predicate DrainOk(queue: seq<Item>, active: seq<Busy>, total: nat, d: nat, r: Drain) {
    match r
    case AtBarrier(owed, running) =>
      && (Barrier(d) in queue ==> Barrier(d) in owed
                                  && forall x :: x in owed ==> x == Barrier(d) || Before(queue, x, Barrier(d)))
      && (Barrier(d) !in queue ==> owed == {})
      && running <= ActiveStarts(active)
    case AtActive(snap, running) =>
      && snap <= total && running <= ActiveStarts(active)
      && forall n :: n in running ==> n <= snap
    case Done(snap, running) =>
      forall n :: n in running ==> n <= snap && (snap - n) % TWO32 > HALF
  }

  ghost predicate DrainsOk(queue: seq<Item>, active: seq<Busy>, total: nat, drains: map<nat, Drain>) {
    && (forall d :: d in drains ==> DrainOk(queue, active, total, d, drains[d]))
    && (forall d :: Barrier(d) in queue ==> d in drains && drains[d].AtBarrier?)
  }

  /** Every accepted enqueue was handed to the handler, cancelled, is pending, or was swallowed,
      and none is swallowed before the count is full. */
  ghost predicate Conserved(t: Tally, pending: map<Item, nat>, x: Item) {
    && Get(t.accepted, x) == Get(t.delivered, x) + Get(t.cancelled, x) + Get(pending, x) + Get(t.lost, x)
    && (Get(t.lost, x) > 0 ==> Get(t.accepted, x) > USHRT_MAX)
  }

  ghost predicate CountsOk(t: Tally, pending: map<Item, nat>) {
    forall x: Item :: x.Task? ==> Conserved(t, pending, x)
  }

  /** The drains waiting for active tasks. */
  ghost function AtActiveDrains(m: map<nat, Drain>): set<nat> { set d | d in m && m[d].AtActive? }

  ghost predicate Inv(st: State) {
    && QueueOk(st.queue, st.hint) && PendingOk(st.queue, st.pending)
    && WorkersOk(st.active, st.total) && st.seqNo == st.total % TWO32
    && DrainsOk(st.queue, st.active, st.total, st.drains)
    && CountsOk(st.tally, st.pending)
    && st.callouts == |st.armed| + |AtActiveDrains(st.drains)|
  }
}
