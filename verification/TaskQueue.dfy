/** The priority task queue: hinted insertion, cancellation, starting and finishing tasks. */
module TaskQueue {
  import opened Basics

  const UCHAR_MAX := 255
  const USHRT_MAX := 65535
  const TWO32 := 0x1_0000_0000

  /** A task with its fixed priority, or the barrier a drain puts on the queue. */
  datatype Item = Task(id: nat, priority: nat) | Barrier(drain: nat)

  function Prio(x: Item): nat {
    if x.Task? then x.priority else UCHAR_MAX
  }

  // ---- Insertion, as a function of queue and hint ----

  /** First position at or after i whose item has lower priority than x. */
  function ScanFrom(q: seq<Item>, x: Item, i: nat): (k: nat)
    requires i <= |q|
    ensures i <= k <= |q|
    ensures forall j :: i <= j < k ==> Prio(q[j]) >= Prio(x)
    ensures k < |q| ==> Prio(q[k]) < Prio(x)
    decreases |q| - i
  {
    if i == |q| || Prio(q[i]) < Prio(x) then i else ScanFrom(q, x, i + 1)
  }

  function IndexOf(q: seq<Item>, x: Item): (k: nat)
    requires x in q
    ensures k < |q| && q[k] == x && x !in q[..k]
  {
    if q[0] == x then 0 else
    var k := IndexOf(q[1..], x);
    assert q[..k + 1] == [q[0]] + q[1..][..k];
    k + 1
  }

  predicate AtTail(q: seq<Item>, x: Item) {
    q == [] || Prio(q[|q| - 1]) >= Prio(x)
  }

  function ScanStart(q: seq<Item>, hint: Option<Item>, x: Item): (i: nat)
    ensures i <= |q|
  {
    if hint.Some? && hint.value in q && Prio(hint.value) >= Prio(x) then IndexOf(q, hint.value) + 1 else 0
  }

  function InsertPos(q: seq<Item>, hint: Option<Item>, x: Item): (k: nat)
    ensures k <= |q|
  {
    if AtTail(q, x) then |q| else ScanFrom(q, x, ScanStart(q, hint, x))
  }

  function Inserted(q: seq<Item>, hint: Option<Item>, x: Item): seq<Item> {
    InsertAt(q, InsertPos(q, hint, x), x)
  }

  /** The hint moves to the new task unless it went to either end the short way. */
  function HintAfter(q: seq<Item>, hint: Option<Item>, x: Item): Option<Item> {
    if AtTail(q, x) || InsertPos(q, hint, x) == 0 then hint else Some(x)
  }

  // ---- What is always true of the queue ----

  /** Priorities do not increase along the queue, except into a barrier. */
  ghost predicate Descending(q: seq<Item>) {
    forall i :: 0 <= i < |q| - 1 ==> q[i + 1].Barrier? || Prio(q[i]) >= Prio(q[i + 1])
  }

  ghost predicate HintOk(q: seq<Item>, hint: Option<Item>) {
    hint.Some? ==> hint.value in q
  }

  ghost predicate QueueOk(q: seq<Item>, hint: Option<Item>) {
    && Distinct(q) && Descending(q) && HintOk(q, hint)
    && forall i :: 0 <= i < |q| ==> Prio(q[i]) <= UCHAR_MAX
  }

  function InsertAt(q: seq<Item>, k: nat, x: Item): (r: seq<Item>)
    requires k <= |q|
    ensures |r| == |q| + 1
    ensures forall j :: 0 <= j < |r| ==> r[j] == if j < k then q[j] else if j == k then x else q[j - 1]
  {
    q[..k] + [x] + q[k..]
  }

  /** Inserting keeps the members and their order. */
  lemma InsertAtMembers(q: seq<Item>, k: nat, x: Item)
    requires k <= |q|
    ensures forall y :: y in InsertAt(q, k, x) <==> y in q || y == x
    ensures forall y, z :: Before(q, y, z) ==> Before(InsertAt(q, k, x), y, z)
  {
    var r := InsertAt(q, k, x);
    assert r[k] == x;
    forall y | y in q ensures y in r {
      var j := IndexOf(q, y);
      assert r[if j < k then j else j + 1] == y;
    }
    forall y, z | Before(q, y, z) ensures Before(r, y, z) {
      var i, j :| 0 <= i < j < |q| && q[i] == y && q[j] == z;
      assert r[if i < k then i else i + 1] == y && r[if j < k then j else j + 1] == z;
    }
  }

  /** y stands somewhere ahead of z. */
  ghost predicate Before(q: seq<Item>, y: Item, z: Item) {
    exists i, j :: 0 <= i < j < |q| && q[i] == y && q[j] == z
  }

  lemma InsertAtOk(q: seq<Item>, k: nat, x: Item)
    requires Distinct(q) && Descending(q) && x !in q && k <= |q|
    requires k > 0 ==> x.Barrier? || Prio(q[k - 1]) >= Prio(x)
    requires k < |q| ==> Prio(x) >= Prio(q[k])
    ensures Distinct(InsertAt(q, k, x)) && Descending(InsertAt(q, k, x))
  {
    var r := InsertAt(q, k, x);
    forall i | 0 <= i < |r| - 1 ensures r[i + 1].Barrier? || Prio(r[i]) >= Prio(r[i + 1]) {
      assert i + 1 < k ==> q[i + 1].Barrier? || Prio(q[i]) >= Prio(q[i + 1]);
      assert i > k ==> q[i - 1 + 1].Barrier? || Prio(q[i - 1]) >= Prio(q[i - 1 + 1]);
    }
  }

  lemma InsertedOk(q: seq<Item>, hint: Option<Item>, x: Item)
    requires QueueOk(q, hint) && x !in q && x.Task? && Prio(x) <= UCHAR_MAX
    ensures QueueOk(Inserted(q, hint, x), HintAfter(q, hint, x))
  {
    hide Distinct, Descending, Before, InsertPos, InsertAt;
    var k := InsertPos(q, hint, x);
    InsertPosFits(q, hint, x);
    InsertAtOk(q, k, x);
    InsertAtMembers(q, k, x);
    LowEnough(q, InsertAt(q, k, x), x);
  }

  lemma InsertPosFits(q: seq<Item>, hint: Option<Item>, x: Item)
    requires QueueOk(q, hint)
    ensures var k := InsertPos(q, hint, x);
            k <= |q| && (k > 0 ==> Prio(q[k - 1]) >= Prio(x)) && (k < |q| ==> Prio(x) >= Prio(q[k]))
  {
    hide Distinct, Descending;
  }

  lemma LowEnough(q: seq<Item>, r: seq<Item>, x: Item)
    requires (forall i :: 0 <= i < |q| ==> Prio(q[i]) <= UCHAR_MAX) && Prio(x) <= UCHAR_MAX
    requires forall y :: y in r <==> y in q || y == x
    ensures forall i :: 0 <= i < |r| ==> Prio(r[i]) <= UCHAR_MAX
  {
    forall i | 0 <= i < |r| ensures Prio(r[i]) <= UCHAR_MAX { assert r[i] in r; }
  }

  function RemoveAt(q: seq<Item>, k: nat): (r: seq<Item>)
    requires k < |q|
    ensures |r| == |q| - 1
    ensures forall j :: 0 <= j < |r| ==> r[j] == if j < k then q[j] else q[j + 1]
  {
    q[..k] + q[k + 1..]
  }

  /** Removing keeps the other members and their order. */
  lemma RemoveAtMembers(q: seq<Item>, k: nat)
    requires k < |q| && Distinct(q)
    ensures q[k] !in RemoveAt(q, k)
    ensures forall y :: y != q[k] ==> (y in RemoveAt(q, k) <==> y in q)
    ensures forall y, z :: y != q[k] && z != q[k] && Before(q, y, z) ==> Before(RemoveAt(q, k), y, z)
  {
    var r := RemoveAt(q, k);
    forall y | y != q[k] && y in q ensures y in r {
      var j := IndexOf(q, y);
      assert r[if j < k then j else j - 1] == y;
    }
    forall y, z | y != q[k] && z != q[k] && Before(q, y, z) ensures Before(r, y, z) {
      var i, j :| 0 <= i < j < |q| && q[i] == y && q[j] == z;
      assert r[if i < k then i else i - 1] == y && r[if j < k then j else j - 1] == z;
    }
  }

  /** A removed head, or a removed task, leaves the queue in order. */
  lemma RemoveAtOk(q: seq<Item>, k: nat)
    requires k < |q| && Distinct(q) && Descending(q) && (q[k].Task? || k == 0)
    ensures Distinct(RemoveAt(q, k)) && Descending(RemoveAt(q, k))
  {
    var r := RemoveAt(q, k);
    forall i | 0 <= i < |r| - 1 ensures r[i + 1].Barrier? || Prio(r[i]) >= Prio(r[i + 1]) {
      assert q[i + 1].Barrier? || Prio(q[i]) >= Prio(q[i + 1]);
      assert q[i + 1 + 1].Barrier? || Prio(q[i + 1]) >= Prio(q[i + 1 + 1]);
    }
  }

  function HintWithout(hint: Option<Item>, x: Item): Option<Item> {
    if hint == Some(x) then None else hint
  }

  lemma RemovedOk(q: seq<Item>, hint: Option<Item>, k: nat)
    requires QueueOk(q, hint) && k < |q| && (q[k].Task? || k == 0)
    ensures QueueOk(RemoveAt(q, k), HintWithout(hint, q[k]))
  {
    RemoveAtOk(q, k);
    RemoveAtMembers(q, k);
    hide Distinct, Descending;
  }

  // ---- The hint is only a cache ----

  /** Reference: put x behind everything of at least its priority. */
  function StableInsert(q: seq<Item>, x: Item): seq<Item> {
    if q == [] || Prio(q[0]) < Prio(x) then [x] + q else [q[0]] + StableInsert(q[1..], x)
  }

  ghost predicate NoBarrier(q: seq<Item>) { forall i :: 0 <= i < |q| ==> q[i].Task? }

  lemma {:induction false} StableAt(q: seq<Item>, x: Item, k: nat)
    requires k <= |q|
    requires forall j :: 0 <= j < k ==> Prio(q[j]) >= Prio(x)
    requires k < |q| ==> Prio(q[k]) < Prio(x)
    ensures StableInsert(q, x) == q[..k] + [x] + q[k..]
  {
    if k > 0 {
      StableAt(q[1..], x, k - 1);
      assert q[..k] == [q[0]] + q[1..][..k - 1];
      assert q[1..][k - 1..] == q[k..];
    }
  }

  lemma {:induction false} SortedBefore(q: seq<Item>, i: nat, j: nat)
    requires Descending(q) && NoBarrier(q) && i <= j < |q|
    ensures Prio(q[i]) >= Prio(q[j])
    decreases j - i
  {
    if i < j {
      SortedBefore(q, i + 1, j);
      assert q[i + 1].Barrier? || Prio(q[i]) >= Prio(q[i + 1]);
    }
  }

  /** With no barrier queued, the hinted insertion gives the queue that plain stable
      priority insertion gives, whatever the hint. */
  lemma HintIsCache(q: seq<Item>, hint: Option<Item>, x: Item)
    requires QueueOk(q, hint) && NoBarrier(q)
    ensures Inserted(q, hint, x) == StableInsert(q, x)
  {
    var k := InsertPos(q, hint, x);
    forall j | 0 <= j < k ensures Prio(q[j]) >= Prio(x) {
      if AtTail(q, x) {
        SortedBefore(q, j, |q| - 1);
      } else if j < ScanStart(q, hint, x) {
        SortedBefore(q, j, ScanStart(q, hint, x) - 1);
      }
    }
    StableAt(q, x, k);
  }

  // ---- The queue itself ----

  ghost predicate PendingAt(q: seq<Item>, pending: map<Item, nat>, x: Item) {
    (x in q <==> Get(pending, x) > 0) && Get(pending, x) <= USHRT_MAX
  }

  /** A task is on the queue exactly while it has enqueues pending. */
  ghost predicate PendingOk(q: seq<Item>, pending: map<Item, nat>) {
    forall x :: PendingAt(q, pending, x)
  }

  lemma PendingSet(q: seq<Item>, pending: map<Item, nat>, q': seq<Item>, x: Item, n: nat)
    requires PendingOk(q, pending) && n <= USHRT_MAX && (x in q' <==> n > 0)
    requires forall y :: y != x ==> (y in q' <==> y in q)
    ensures PendingOk(q', pending[x := n])
  {
    var p' := pending[x := n];
    forall y ensures PendingAt(q', p', y) {
      assert PendingAt(q, pending, y);
    }
  }

  lemma InsertedPending(q: seq<Item>, hint: Option<Item>, pending: map<Item, nat>, x: Item)
    requires QueueOk(q, hint) && PendingOk(q, pending) && x !in q && x.Task? && Prio(x) <= UCHAR_MAX
    ensures QueueOk(Inserted(q, hint, x), HintAfter(q, hint, x))
    ensures PendingOk(Inserted(q, hint, x), pending[x := 1])
  {
    InsertedOk(q, hint, x);
    InsertAtMembers(q, InsertPos(q, hint, x), x);
    hide QueueOk, PendingOk, Before;
    PendingSet(q, pending, Inserted(q, hint, x), x, 1);
  }

  datatype Result = Ok | Exists | Canceled

  /** A worker inside the run loop and what it is running; start is history: how many tasks
      had started on this queue when this one did, itself included. */
  datatype Busy = Busy(worker: nat, running: Item, seqNo: nat, canceling: bool, start: nat)

  /** Position of the first list entry running x; the list's length if there is none. */
  function BusyIndex(active: seq<Busy>, x: Item): (k: nat)
    ensures k <= |active|
    ensures forall j :: 0 <= j < k ==> active[j].running != x
    ensures k < |active| ==> active[k].running == x
  {
    if active == [] || active[0].running == x then 0 else 1 + BusyIndex(active[1..], x)
  }

  predicate IsCanceling(active: seq<Busy>, x: Item) {
    var k := BusyIndex(active, x); k < |active| && active[k].canceling
  }

  function MarkCanceling(active: seq<Busy>, x: Item): (r: seq<Busy>)
    ensures |r| == |active|
  {
    var k := BusyIndex(active, x);
    if k < |active| then active[k := active[k].(canceling := true)] else active
  }

  /** struct taskqueue, as each operation finds and leaves it under the queue mutex. */
  class Queue {
    var queue: seq<Item>
    var hint: Option<Item>
    var pending: map<Item, nat>
    var active: seq<Busy>
    var seqNo: nat

    ghost predicate Valid()
      reads this
    {
      && QueueOk(queue, hint) && seqNo < TWO32
      && PendingOk(queue, pending)
    }

    constructor ()
      ensures Valid() && queue == [] && active == [] && seqNo == 0 && pending == map[] && hint == None
    {
      queue, hint, pending, active, seqNo := [], None, map[], [], 0;
    }

    method GetBusy(task: Item) returns (k: nat)
      ensures k == BusyIndex(active, task)
    {
      k := 0;
      assert active[0..] == active;
      while k < |active| && active[k].running != task
        invariant k <= |active|
        invariant BusyIndex(active, task) == k + BusyIndex(active[k..], task)
      {
        assert active[k..][1..] == active[k + 1..];
        k := k + 1;
      }
    }

    /** Count one more enqueue of what is pending, or insert it behind everything of at least
        its priority that the hinted scan passes. */
    method EnqueueLocked(task: Item, failIfPending: bool, failIfCanceling: bool) returns (res: Result)
      requires Valid() && task.Task? && task.priority <= UCHAR_MAX
      modifies this`queue, this`hint, this`pending
      ensures Valid()
      ensures res == if failIfCanceling && IsCanceling(active, task) then Canceled
                     else if failIfPending && Get(old(pending), task) > 0 then Exists else Ok
      ensures res != Ok ==> queue == old(queue) && hint == old(hint) && pending == old(pending)
      ensures res == Ok && Get(old(pending), task) > 0 ==>
                && queue == old(queue) && hint == old(hint)
                && pending == old(pending)[task := if Get(old(pending), task) < USHRT_MAX
                                                   then Get(old(pending), task) + 1 else USHRT_MAX]
      ensures res == Ok && Get(old(pending), task) == 0 ==>
                && queue == Inserted(old(queue), old(hint), task)
                && hint == HintAfter(old(queue), old(hint), task) && pending == old(pending)[task := 1]
    {
      if failIfCanceling {
        var k := GetBusy(task);
        if k < |active| && active[k].canceling { return Canceled; }
      }
      assert PendingAt(queue, pending, task);
      if Get(pending, task) > 0 {
        if failIfPending { return Exists; }
        if pending[task] < USHRT_MAX {
          PendingSet(queue, pending, queue, task, pending[task] + 1);
          pending := pending[task := pending[task] + 1];
        }
        return Ok;
      }
      InsertNew(task);
      res := Ok;
    }

    method InsertNew(task: Item)
      requires Valid() && task.Task? && task.priority <= UCHAR_MAX && task !in queue
      modifies this`queue, this`hint, this`pending
      ensures Valid()
      ensures queue == Inserted(old(queue), old(hint), task)
      ensures hint == HintAfter(old(queue), old(hint), task) && pending == old(pending)[task := 1]
    {
      InsertedPending(queue, hint, pending, task);
      assert HintOk(queue, hint);
      hide PendingOk, QueueOk;
      if queue == [] || Prio(queue[|queue| - 1]) >= Prio(task) {
        assert InsertAt(queue, |queue|, task) == queue + [task];
        queue := queue + [task];
      } else {
        var at := FindPlace(task);
        if at > 0 { hint := Some(task); }
        queue := InsertAt(queue, at, task);
      }
      pending := pending[task := 1];
    }

    /** The scan: from behind the hint if that is not too low, else from the head. */
    method FindPlace(task: Item) returns (at: nat)
      requires HintOk(queue, hint) && !AtTail(queue, task)
      ensures at == InsertPos(queue, hint, task)
    {
      at := 0;
      if hint.Some? && Prio(hint.value) >= Prio(task) {
        at := IndexOf(queue, hint.value) + 1;
      }
      while at < |queue| && Prio(queue[at]) >= Prio(task)
        invariant at <= |queue|
        invariant ScanFrom(queue, task, ScanStart(queue, hint, task)) == ScanFrom(queue, task, at)
      {
        at := at + 1;
      }
    }

    /** Take a task off the queue, report how often it was enqueued, and mark it if running. */
    method CancelLocked(task: Item) returns (busy: bool, was: nat)
      requires Valid() && task.Task?
      modifies this`queue, this`hint, this`pending, this`active
      ensures Valid()
      ensures was == Get(old(pending), task) && pending == old(pending)[task := 0]
      ensures was == 0 ==> queue == old(queue) && hint == old(hint)
      ensures was > 0 ==> task in old(queue) && queue == RemoveAt(old(queue), IndexOf(old(queue), task))
                          && hint == HintWithout(old(hint), task)
      ensures busy == (BusyIndex(old(active), task) < |old(active)|)
      ensures active == MarkCanceling(old(active), task)
    {
      was := Get(pending, task);
      assert PendingAt(queue, pending, task);
      hide PendingOk, Before;
      ghost var q0, p0 := queue, pending;
      if was > 0 {
        var k := IndexOf(queue, task);
        RemovedOk(queue, hint, k);
        RemoveAtMembers(queue, k);
        hide QueueOk;
        queue := RemoveAt(queue, k);
        hint := HintWithout(hint, task);
      }
      PendingSet(q0, p0, queue, task, 0);
      pending := pending[task := 0];
      var k := GetBusy(task);
      busy := k < |active|;
      if busy { active := active[k := active[k].(canceling := true)]; }
    }

    /** The worker's next turn: off the head of the queue, numbered, and counted. */
    method TakeHead() returns (task: Item, count: nat)
      requires Valid() && queue != []
      modifies this`queue, this`hint, this`pending, this`seqNo
      ensures Valid()
      ensures task == old(queue)[0] && queue == old(queue)[1..] && hint == HintWithout(old(hint), task)
      ensures count == Get(old(pending), task) > 0 && pending == old(pending)[task := 0]
      ensures seqNo == (old(seqNo) + 1) % TWO32
    {
      task := queue[0];
      RemovedOk(queue, hint, 0);
      RemoveAtMembers(queue, 0);
      assert RemoveAt(queue, 0) == queue[1..];
      assert task in queue && PendingAt(queue, pending, task);
      hide QueueOk, PendingOk, Before;
      PendingSet(queue, pending, queue[1..], task, 0);
      queue := queue[1..];
      hint := HintWithout(hint, task);
      count := pending[task];
      pending := pending[task := 0];
      seqNo := (seqNo + 1) % TWO32;
    }

    /** A drain puts its barrier behind everything queued. */
    method PutBarrier(d: nat)
      requires Valid() && Barrier(d) !in queue && queue != []
      modifies this`queue, this`hint, this`pending
      ensures Valid()
      ensures queue == old(queue) + [Barrier(d)] && hint == Some(Barrier(d)) && pending == old(pending)[Barrier(d) := 1]
    {
      InsertAtOk(queue, |queue|, Barrier(d));
      assert InsertAt(queue, |queue|, Barrier(d)) == queue + [Barrier(d)];
      PendingSet(queue, pending, queue + [Barrier(d)], Barrier(d), 1);
      queue := queue + [Barrier(d)];
      hint := Some(Barrier(d));
      pending := pending[Barrier(d) := 1];
    }
  }
}
