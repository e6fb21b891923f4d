/** A run in which a worker ends up waiting for itself: splice 0 of socket 0 is queued; a
    closer hides it and is delayed; splice 1 of the same socket is installed and queued
    behind it; the worker takes both, fails on splice 0, and unsplices the socket. */
module SpliceScenario {
  import opened Basics
  import opened SpliceMachine
  import opened SpliceSelfWait

  ghost predicate Reachable(st: State) {
    exists run, steps :: IsRun(run, steps) && run[|run| - 1] == st
  }

  lemma Reach(st: State, e: Step, st': State)
    requires Reachable(st) && Enabled(st, e) && Apply(st, e) == st'
    ensures Reachable(st')
  {
    hide Enabled, Apply, Initial, Moves;
    var run, steps :| IsRun(run, steps) && run[|run| - 1] == st;
    var run', steps' := run + [st'], steps + [e];
    assert IsRun(run', steps');
    assert run'[|run'| - 1] == st';
  }

  /** st with thread t, splice i and the sockets replaced. */
  ghost function Put(st: State, t: Tid, pc: Pc, i: SpId, s: Splice, socks: map<SockId, Socket>): State {
    st.(thr := st.thr[t := pc], sps := st.sps[i := s], socks := socks)
  }

  ghost function Rec(state: SpState, dst: SockId, mtx: Option<Tid>, ticket: Ticket, setup: Option<Tid>,
                     attached: bool, taken: nat, sunk: nat): Splice {
    Splice(state, 0, Some(dst), 0, mtx, ticket, setup, None, attached, taken, 0, sunk, 0, 0, 0)
  }

  /** Thread 2 is free to splice socket 0, which has data, to socket dst, which has room. */
  ghost predicate Ready(st: State, i: SpId, dst: SockId) {
    && !st.panic && 2 in st.thr && st.thr[2] == Work([]) && i !in st.sps && 0 in st.queues && dst != 0
    && 0 in st.socks && st.socks[0].splice == None && st.socks[0].rcvLock == None && st.socks[0].avail > 0
    && dst in st.socks && st.socks[dst].back == None && st.socks[dst].sndLock == None && st.socks[dst].space > 0
  }

  ghost function Spliced(st: State, i: SpId, dst: SockId): map<SockId, Socket>
    requires 0 in st.socks && dst in st.socks && dst != 0
  {
    st.socks[0 := st.socks[0].(splice := Some(i))][dst := st.socks[dst].(back := Some(i))]
  }

  ghost function Published(st: State, i: SpId): map<SockId, Socket>
    requires 0 in st.socks
  {
    st.socks[0 := st.socks[0].(splice := Some(i))]
  }

  lemma SetUp(st: State, i: SpId, dst: SockId)
    requires Reachable(st) && Ready(st, i, dst)
    ensures Reachable(Put(st, 2, Xfer(i, []), i, Rec(Queued, dst, Some(2), With(2), None, true, 1, 1),
                          Spliced(st, i, dst)))
  {
    hide Moves, Reachable, BufferEnabled, TransferEnabled, CloseEnabled, ApplyBuffer, ApplyTransfer, ApplyClose,
         CanPublishDst, CanFailSetup, CanFirstXfer, DoPublishDst, DoFailSetup, DoFirstXfer;
    var a := Put(st, 2, SetupSrc(i), i, Rec(Init, dst, None, NoTicket, Some(2), false, 0, 0), st.socks);
    var b := Put(st, 2, SetupDst(i), i, Rec(Init, dst, None, NoTicket, Some(2), false, 1, 0), Published(st, i));
    Reach(st, Setup(Alloc(2, i, 0, dst, 0)), a);
    Reach(a, Setup(PublishSrc(2, false)), b);
    Attach(st, i, dst);
  }

  lemma Attach(st: State, i: SpId, dst: SockId)
    requires Ready(st, i, dst)
    requires Reachable(Put(st, 2, SetupDst(i), i, Rec(Init, dst, None, NoTicket, Some(2), false, 1, 0),
                           Published(st, i)))
    ensures Reachable(Put(st, 2, Xfer(i, []), i, Rec(Queued, dst, Some(2), With(2), None, true, 1, 1),
                          Spliced(st, i, dst)))
  {
    hide Moves, Reachable, BufferEnabled, TransferEnabled, CloseEnabled, ApplyBuffer, ApplyTransfer, ApplyClose,
         CanAlloc, CanPublishSrc, CanFailSetup, DoAlloc, DoPublishSrc, DoFailSetup;
    var b := Put(st, 2, SetupDst(i), i, Rec(Init, dst, None, NoTicket, Some(2), false, 1, 0), Published(st, i));
    var c := Put(st, 2, SetupHeld(i), i, Rec(Init, dst, Some(2), NoTicket, Some(2), true, 1, 1), Spliced(st, i, dst));
    Reach(b, Setup(PublishDst(2, false)), c);
    Reach(c, Setup(FirstXfer(2)),
          Put(st, 2, Xfer(i, []), i, Rec(Queued, dst, Some(2), With(2), None, true, 1, 1), Spliced(st, i, dst)));
  }

  /** After the set-up's own transfer there is more to do, and the splice is queued. */
  ghost function Installed(st: State, i: SpId, dst: SockId): State
    requires Ready(st, i, dst)
  {
    Put(st, 2, Work([]), i, Rec(Queued, dst, None, OnQueue, None, true, 1, 1), Spliced(st, i, dst))
      .(queues := st.queues[0 := st.queues[0] + [i]])
  }

  lemma Install(st: State, i: SpId, dst: SockId)
    requires Reachable(st) && Ready(st, i, dst)
    ensures Reachable(Installed(st, i, dst))
  {
    hide Moves, Reachable, BufferEnabled, SetupEnabled, CloseEnabled, ApplyBuffer, ApplySetup, ApplyClose,
         CanTakeQueue, CanLockNext, CanRelock, CanDecide, CanCheckSpace, CanSetIdle,
         DoTakeQueue, DoLockNext, DoRelock, DoDecide, DoCheckSpace, DoSetIdle;
    SetUp(st, i, dst);
    var k := Spliced(st, i, dst);
    var a := Put(st, 2, Xfer(i, []), i, Rec(Queued, dst, Some(2), With(2), None, true, 1, 1), k);
    var b := Put(st, 2, Moving(i, []), i, Rec(Running, dst, None, With(2), None, true, 1, 1), k);
    var c := Put(st, 2, Moved(i, [], false), i, Rec(Running, dst, None, With(2), None, true, 1, 1), k);
    Reach(a, Transfer(BeginXfer(2)), b);
    Reach(b, Transfer(Move(2, 0, 0, false)), c);
    Requeue(st, i, dst);
  }

  lemma Requeue(st: State, i: SpId, dst: SockId)
    requires Ready(st, i, dst)
    requires Reachable(Put(st, 2, Moved(i, [], false), i, Rec(Running, dst, None, With(2), None, true, 1, 1),
                           Spliced(st, i, dst)))
    ensures Reachable(Installed(st, i, dst))
  {
    hide Moves, Reachable, BufferEnabled, SetupEnabled, CloseEnabled, ApplyBuffer, ApplySetup, ApplyClose,
         CanTakeQueue, CanLockNext, CanBeginXfer, CanMove, CanCheckSpace, CanSetIdle,
         DoTakeQueue, DoLockNext, DoBeginXfer, DoMove, DoCheckSpace, DoSetIdle;
    var k := Spliced(st, i, dst);
    var c := Put(st, 2, Moved(i, [], false), i, Rec(Running, dst, None, With(2), None, true, 1, 1), k);
    var d := Put(st, 2, Deciding(i, [], false), i, Rec(Running, dst, Some(2), With(2), None, true, 1, 1), k);
    var e := Put(st, 2, ReadSpace(i, []), i, Rec(Running, dst, Some(2), With(2), None, true, 1, 1), k);
    Reach(c, Transfer(Relock(2)), d);
    Reach(d, Transfer(Decide(2, false)), e);
    SeeSpace(st, i, dst);
    PutOnQueue(st, i, dst);
  }

  lemma SeeSpace(st: State, i: SpId, dst: SockId)
    requires Ready(st, i, dst)
    requires Reachable(Put(st, 2, ReadSpace(i, []), i, Rec(Running, dst, Some(2), With(2), None, true, 1, 1),
                           Spliced(st, i, dst)))
    ensures Reachable(Put(st, 2, AsyncDue(i, []), i, Rec(Queued, dst, None, With(2), None, true, 1, 1),
                          Spliced(st, i, dst)))
  {
    hide Moves, Reachable, BufferEnabled, SetupEnabled, CloseEnabled, ApplyBuffer, ApplySetup, ApplyClose,
         CanTakeQueue, CanLockNext, CanBeginXfer, CanMove, CanRelock, CanDecide, CanSetIdle,
         DoTakeQueue, DoLockNext, DoBeginXfer, DoMove, DoRelock, DoDecide, DoSetIdle;
    var k := Spliced(st, i, dst);
    Reach(Put(st, 2, ReadSpace(i, []), i, Rec(Running, dst, Some(2), With(2), None, true, 1, 1), k),
          Transfer(CheckSpace(2)),
          Put(st, 2, AsyncDue(i, []), i, Rec(Queued, dst, None, With(2), None, true, 1, 1), k));
  }

  lemma PutOnQueue(st: State, i: SpId, dst: SockId)
    requires Ready(st, i, dst)
    requires Reachable(Put(st, 2, AsyncDue(i, []), i, Rec(Queued, dst, None, With(2), None, true, 1, 1),
                           Spliced(st, i, dst)))
    ensures Reachable(Installed(st, i, dst))
  {
    hide Moves, Reachable, TransferEnabled, SetupEnabled, CloseEnabled, ApplyTransfer, ApplySetup, ApplyClose,
         CanAppend, CanDrop, CanWake, CanLockToDispatch, CanDispatch,
         DoAppend, DoDrop, DoWake, DoLockToDispatch, DoDispatch;
    Reach(Put(st, 2, AsyncDue(i, []), i, Rec(Queued, dst, None, With(2), None, true, 1, 1), Spliced(st, i, dst)),
          Buffer(Enqueue(2)), Installed(st, i, dst));
  }

  // ---- The two splices ----

  ghost function Quiet(n: nat): Socket { Socket(None, None, n, 1, None, None) }

  ghost function Start(): State {
    State(map[0 := Work([]), 1 := Work([]), 2 := Work([])], map[],
          map[0 := Quiet(1), 1 := Quiet(0), 2 := Quiet(0)], map[0 := []], false)
  }

  /** Splice 0 is queued, then hidden by thread 1, which goes no further. */
  ghost function Hidden(): State {
    State(map[0 := Work([]), 1 := UnspDst(0, []), 2 := Work([])],
          map[0 := Rec(Queued, 1, None, OnQueue, None, true, 1, 1).(closer := Some(1), unsplices := 1)],
          map[0 := Quiet(1), 1 := Quiet(0).(back := Some(0)), 2 := Quiet(0)], map[0 := [0]], false)
  }

  lemma HideFirst()
    requires Reachable(Installed(Start(), 0, 1))
    ensures Reachable(Hidden())
  {
    hide Moves, Reachable, BufferEnabled, TransferEnabled, SetupEnabled, ApplyBuffer, ApplyTransfer, ApplySetup,
         CanDetachDst, CanSwitchState, CanWait, CanDropSrc, CanDropDst, CanFree,
         DoDetachDst, DoSwitchState, DoWait, DoDropSrc, DoDropDst, DoFree;
    var a := Installed(Start(), 0, 1);
    var b := Next(a, 1, Unsplice(0, []));
    Reach(a, Close(CallUnsplice(1, 0)), b);
    assert [] + [0] == [0];
    Reach(b, Close(Hide(1)), Hidden());
  }

  ghost function Both(p0: Pc, first: Splice, second: Splice, k0: Socket, k2: Socket): State {
    State(map[0 := p0, 1 := UnspDst(0, []), 2 := Work([])], map[0 := first, 1 := second],
          map[0 := k0, 1 := Quiet(0).(back := Some(0)), 2 := k2], map[0 := []], false)
  }

  ghost function First(state: SpState, mtx: Option<Tid>, ticket: Ticket): Splice {
    Rec(state, 1, mtx, ticket, None, true, 1, 1).(closer := Some(1), unsplices := 1)
  }

  ghost function Second(): Splice { Rec(Queued, 2, None, With(0), None, true, 1, 1) }

  /** The worker at p0, with the first splice as given and the second still published. */
  ghost function Working(p0: Pc, first: Splice): State {
    Both(p0, first, Second(), Quiet(1).(splice := Some(1)), Quiet(0).(back := Some(1)))
  }

  /** Both splices wait in the queue. */
  ghost function BothQueued(): State {
    Both(Work([]), First(Queued, None, OnQueue), Second().(ticket := OnQueue), Quiet(1).(splice := Some(1)),
         Quiet(0).(back := Some(1)))
      .(queues := map[0 := [0, 1]])
  }

  lemma TakeBoth()
    requires Reachable(Installed(Hidden(), 1, 2))
    ensures Reachable(Working(Work([0, 1]), First(Queued, None, With(0))))
  {
    BothAre();
    hide Moves, Reachable, BufferEnabled, SetupEnabled, CloseEnabled, ApplyBuffer, ApplySetup, ApplyClose,
         CanTakeQueue, CanLockNext, CanBeginXfer, CanMove, CanRelock, CanDecide, CanCheckSpace, CanSetIdle,
         DoTakeQueue, DoLockNext, DoBeginXfer, DoMove, DoRelock, DoDecide, DoCheckSpace, DoSetIdle,
         BothQueued, Working, First;
    BothTaken();
    Reach(BothQueued(), Transfer(TakeQueue(0, 0)), Working(Work([0, 1]), First(Queued, None, With(0))));
  }

  lemma BothAre()
    ensures Installed(Hidden(), 1, 2) == BothQueued()
  {
    assert [0] + [1] == [0, 1];
  }

  lemma BothTaken()
    ensures CanTakeQueue(BothQueued(), 0, 0)
    ensures DoTakeQueue(BothQueued(), 0, 0) == Working(Work([0, 1]), First(Queued, None, With(0)))
  {
    hide Moves, Rec, First, Second;
    BothMarked(First(Queued, None, OnQueue), Second().(ticket := OnQueue));
    RecTicket();
  }

  lemma BothMarked(a: Splice, b: Splice)
    ensures var both := map[0 := a, 1 := b];
            (map x | x in both :: if x in [0, 1] then both[x].(ticket := With(0)) else both[x])
            == map[0 := a.(ticket := With(0)), 1 := b.(ticket := With(0))]
  {
  }

  lemma RecTicket()
    ensures First(Queued, None, OnQueue).(ticket := With(0)) == First(Queued, None, With(0))
    ensures Second().(ticket := With(0)) == Second()
  {
  }

  lemma MoveFirst()
    requires Reachable(Working(Work([0, 1]), First(Queued, None, With(0))))
    ensures Reachable(Working(Moved(0, [1], true), First(Running, None, With(0))))
  {
    hide *;
    LockFirst();
    BeginFirst();
    GiveUpFirst();
  }

  lemma LockFirst()
    requires Reachable(Working(Work([0, 1]), First(Queued, None, With(0))))
    ensures Reachable(Working(Xfer(0, [1]), First(Queued, Some(0), With(0))))
  {
    hide Moves, Reachable, BufferEnabled, SetupEnabled, CloseEnabled, ApplyBuffer, ApplySetup, ApplyClose,
         CanTakeQueue, CanBeginXfer, CanRelock, CanDecide, CanCheckSpace, CanSetIdle, CanMove,
         DoTakeQueue, DoBeginXfer, DoRelock, DoDecide, DoCheckSpace, DoSetIdle, DoMove;
    assert [0, 1][1..] == [1];
    Reach(Working(Work([0, 1]), First(Queued, None, With(0))), Transfer(LockNext(0)),
          Working(Xfer(0, [1]), First(Queued, Some(0), With(0))));
  }

  lemma BeginFirst()
    requires Reachable(Working(Xfer(0, [1]), First(Queued, Some(0), With(0))))
    ensures Reachable(Working(Moving(0, [1]), First(Running, None, With(0))))
  {
    hide Moves, Reachable, BufferEnabled, SetupEnabled, CloseEnabled, ApplyBuffer, ApplySetup, ApplyClose,
         CanTakeQueue, CanLockNext, CanRelock, CanDecide, CanCheckSpace, CanSetIdle, CanMove,
         DoTakeQueue, DoLockNext, DoRelock, DoDecide, DoCheckSpace, DoSetIdle, DoMove;
    Reach(Working(Xfer(0, [1]), First(Queued, Some(0), With(0))), Transfer(BeginXfer(0)),
          Working(Moving(0, [1]), First(Running, None, With(0))));
  }

  lemma GiveUpFirst()
    requires Reachable(Working(Moving(0, [1]), First(Running, None, With(0))))
    ensures Reachable(Working(Moved(0, [1], true), First(Running, None, With(0))))
  {
    hide Moves, Reachable, BufferEnabled, SetupEnabled, CloseEnabled, ApplyBuffer, ApplySetup, ApplyClose,
         CanTakeQueue, CanLockNext, CanBeginXfer, CanRelock, CanDecide, CanCheckSpace, CanSetIdle,
         DoTakeQueue, DoLockNext, DoBeginXfer, DoRelock, DoDecide, DoCheckSpace, DoSetIdle;
    var b := Working(Moving(0, [1]), First(Running, None, With(0)));
    Reach(b, Transfer(Move(0, 0, 0, true)), Working(Moved(0, [1], true), First(Running, None, With(0))));
  }

  /** The transfer failed and the closer has not switched the state yet. */
  lemma FailFirst()
    requires Reachable(Working(Moved(0, [1], true), First(Running, None, With(0))))
    ensures Reachable(Working(Unsplice(0, [1]), First(Exception, None, NoTicket)))
  {
    hide *;
    RelockFirst();
    DecideFirst();
  }

  lemma RelockFirst()
    requires Reachable(Working(Moved(0, [1], true), First(Running, None, With(0))))
    ensures Reachable(Working(Deciding(0, [1], true), First(Running, Some(0), With(0))))
  {
    hide Moves, Reachable, BufferEnabled, SetupEnabled, CloseEnabled, ApplyBuffer, ApplySetup, ApplyClose,
         CanTakeQueue, CanLockNext, CanBeginXfer, CanMove, CanDecide, CanCheckSpace, CanSetIdle,
         DoTakeQueue, DoLockNext, DoBeginXfer, DoMove, DoDecide, DoCheckSpace, DoSetIdle;
    Reach(Working(Moved(0, [1], true), First(Running, None, With(0))), Transfer(Relock(0)),
          Working(Deciding(0, [1], true), First(Running, Some(0), With(0))));
  }

  lemma DecideFirst()
    requires Reachable(Working(Deciding(0, [1], true), First(Running, Some(0), With(0))))
    ensures Reachable(Working(Unsplice(0, [1]), First(Exception, None, NoTicket)))
  {
    hide Moves, Reachable, BufferEnabled, SetupEnabled, CloseEnabled, ApplyBuffer, ApplySetup, ApplyClose,
         CanTakeQueue, CanLockNext, CanBeginXfer, CanMove, CanRelock, CanCheckSpace, CanSetIdle,
         DoTakeQueue, DoLockNext, DoBeginXfer, DoMove, DoRelock, DoCheckSpace, DoSetIdle;
    Reach(Working(Deciding(0, [1], true), First(Running, Some(0), With(0))), Transfer(Decide(0, false)),
          Working(Unsplice(0, [1]), First(Exception, None, NoTicket)));
  }

  ghost function Closing2(state: SpState, attached: bool): Splice {
    Second().(state := state, attached := attached, closer := Some(0), unsplices := 1)
  }

  /** The worker unsplices the socket and finds the second splice. */
  lemma HideSecond()
    requires Reachable(Working(Unsplice(0, [1]), First(Exception, None, NoTicket)))
    ensures Reachable(Both(UnspDst(1, [1]), First(Exception, None, NoTicket), Closing2(Queued, true),
                           Quiet(1), Quiet(0).(back := Some(1))))
  {
    hide Moves, Reachable, BufferEnabled, TransferEnabled, SetupEnabled, ApplyBuffer, ApplyTransfer, ApplySetup,
         CanCallUnsplice, CanDetachDst, CanSwitchState, CanWait, CanDropSrc, CanDropDst, CanFree,
         DoCallUnsplice, DoDetachDst, DoSwitchState, DoWait, DoDropSrc, DoDropDst, DoFree;
    var f := First(Exception, None, NoTicket);
    Reach(Working(Unsplice(0, [1]), f), Close(Hide(0)),
          Both(UnspDst(1, [1]), f, Closing2(Queued, true), Quiet(1), Quiet(0).(back := Some(1))));
  }

  lemma DetachSecond()
    requires Reachable(Both(UnspDst(1, [1]), First(Exception, None, NoTicket), Closing2(Queued, true),
                            Quiet(1), Quiet(0).(back := Some(1))))
    ensures Reachable(Both(UnspState(1, [1]), First(Exception, None, NoTicket), Closing2(Queued, false), Quiet(1),
                           Quiet(0)))
  {
    hide Moves, Reachable, BufferEnabled, TransferEnabled, SetupEnabled, ApplyBuffer, ApplyTransfer, ApplySetup,
         CanCallUnsplice, CanHide, CanSwitchState, CanWait, CanDropSrc, CanDropDst, CanFree,
         DoCallUnsplice, DoHide, DoSwitchState, DoWait, DoDropSrc, DoDropDst, DoFree;
    var f := First(Exception, None, NoTicket);
    Reach(Both(UnspDst(1, [1]), f, Closing2(Queued, true), Quiet(1), Quiet(0).(back := Some(1))), Close(DetachDst(0)),
          Both(UnspState(1, [1]), f, Closing2(Queued, false), Quiet(1), Quiet(0)));
  }

  lemma CloseSecond()
    requires Reachable(Both(UnspState(1, [1]), First(Exception, None, NoTicket), Closing2(Queued, false), Quiet(1),
                            Quiet(0)))
    ensures Reachable(Both(UnspWait(1, [1]), First(Exception, None, NoTicket), Closing2(Closing, false), Quiet(1),
                           Quiet(0)))
  {
    hide Moves, Reachable, BufferEnabled, TransferEnabled, SetupEnabled, ApplyBuffer, ApplyTransfer, ApplySetup,
         CanCallUnsplice, CanHide, CanDetachDst, CanWait, CanDropSrc, CanDropDst, CanFree,
         DoCallUnsplice, DoHide, DoDetachDst, DoWait, DoDropSrc, DoDropDst, DoFree;
    var f := First(Exception, None, NoTicket);
    Reach(Both(UnspState(1, [1]), f, Closing2(Queued, false), Quiet(1), Quiet(0)), Close(SwitchState(0)),
          Both(UnspWait(1, [1]), f, Closing2(Closing, false), Quiet(1), Quiet(0)));
  }

  lemma StartReachable()
    ensures Reachable(Start())
  {
    assert IsRun([Start()], []) && [Start()][0] == Start();
  }

  /** Some run leads to a worker that waits for a splice on its own list; by
      SelfWaitForever it then waits for ever. */
  lemma WorkerCanWaitForItself() returns (st: State)
    ensures Reachable(st) && SelfWait(st, 0, 1)
  {
    hide Reachable;
    StartReachable();
    Install(Start(), 0, 1);
    HideFirst();
    Install(Hidden(), 1, 2);
    TakeBoth();
    MoveFirst();
    FailFirst();
    HideSecond();
    DetachSecond();
    CloseSecond();
    st := Both(UnspWait(1, [1]), First(Exception, None, NoTicket), Closing2(Closing, false), Quiet(1), Quiet(0));
  }
}
