/** No wakeup is lost: a visible splice is never left idle with data to move and room for it
    unless some thread still has to look at it. */
module SpliceProgress {
  import opened Basics
  import opened SpliceMachine
  import opened SpliceInvariant
  import opened SpliceFrame
  import opened SpliceSteps

  /** What a splice's idleness depends on did not get worse. */
  ghost predicate Quiet(k: Socket, k': Socket, d: Socket, d': Socket) {
    && (k'.avail <= k.avail || k'.rcvLock.Some?) && (k.rcvLock.Some? ==> k'.rcvLock.Some?)
    && (d'.space <= d.space || d'.sndLock.Some?) && (d.sndLock.Some? ==> d'.sndLock.Some?)
  }

  ghost predicate Busy(st: State, sp: SpId) {
    sp in st.sps && PointersOk(st, sp, st.sps[sp]) ==> BusyOk(st, sp)
  }

  lemma BusyAt(st: State, sp: SpId)
    requires NoWorkLost(st)
    ensures Busy(st, sp)
  {
    hide BusyOk, PointersOk;
  }

  /** The claims about a splice are empty until it is published, attached and under way. */
  ghost predicate Gated(s: Splice) {
    Published(s) && s.dst.Some? && s.state != Init
  }

  lemma UngatedIsFine(st: State, sp: SpId)
    requires Safe(st) && sp in st.sps && !Gated(st.sps[sp])
    ensures Busy(st, sp)
  {
    hide Moves, ThreadsOk, SplicesOk, SocketsOk, QueuesOk, RestOk;
    SpAt(st, sp);
    var s := st.sps[sp];
    if s.mtx.Some? { PcAt(st, s.mtx.value); }
  }

  /** A splice whose record is unchanged but for the ticket, whose mutex holder stayed put, and whose sockets
      are quiet. */
  lemma OtherBusy(st: State, st': State, t: Tid, sp: SpId)
    requires Safe(st) && Safe(st') && Busy(st, sp) && sp in st.sps
    requires sp in st'.sps && st'.sps[sp].(ticket := st.sps[sp].ticket) == st.sps[sp]
    requires OneThread(st, st', t) && !HoldsMutex(st.thr[t], sp)
    requires Gated(st.sps[sp]) ==>
               var s := st.sps[sp];
               && s.src in st.socks && s.src in st'.socks && s.dst.value in st.socks && s.dst.value in st'.socks
               && Quiet(st.socks[s.src], st'.socks[s.src], st.socks[s.dst.value], st'.socks[s.dst.value])
    ensures Busy(st', sp)
  {
    hide Moves, ThreadsOk, SplicesOk, SocketsOk, QueuesOk, CountsOk, PhaseOk, HoldsMutex;
    SpAt(st, sp);
    SpAt(st', sp);
    if !Gated(st.sps[sp]) {
      UngatedIsFine(st', sp);
    } else {
      assert st.sps[sp].mtx.Some? ==> st.sps[sp].mtx.value != t;
    }
  }

  /** A step that leaves the sockets alone and changes at most splice sp. */
  lemma StillBusy(st: State, st': State, t: Tid, sp: Option<SpId>)
    requires Safe(st) && Safe(st') && NoWorkLost(st)
    requires OneThread(st, st', t) && SplicesBut(st, st', sp) && st'.socks == st.socks
    requires MainOf(st.thr[t]).Some? ==> MainOf(st.thr[t]) == sp
    requires sp.Some? ==> Busy(st', sp.value)
    ensures NoWorkLost(st')
  {
    hide Moves, ThreadsOk, SplicesOk, SocketsOk, QueuesOk, PointersOk, BusyOk, MainOf, HoldsMutex;
    forall x | x in st'.sps ensures Busy(st', x) {
      if Some(x) != sp {
        BusyAt(st, x);
        MainOnly(st.thr[t], x);
        GatedPointers(st, x);
        OtherBusy(st, st', t, x);
      }
    }
  }

  lemma GatedPointers(st: State, sp: SpId)
    requires Safe(st) && sp in st.sps
    ensures var s := st.sps[sp];
            && s.src in st.socks && (s.dst.Some? ==> s.dst.value in st.socks)
            && (Gated(s) ==> st.socks[s.src].splice == Some(sp) && st.socks[s.dst.value].back == Some(sp))
  {
    hide Moves, ThreadsOk, SplicesOk, SocketsOk, QueuesOk, CountsOk, OwnersOk;
    SpAt(st, sp);
  }

  /** A step that changes socket so: every gated splice but sp finds its sockets quiet. */
  lemma StillBusySock(st: State, st': State, t: Tid, sp: Option<SpId>, so: SockId)
    requires Safe(st) && Safe(st') && NoWorkLost(st)
    requires OneThread(st, st', t) && SplicesBut(st, st', sp) && SocketsBut(st, st', {so})
    requires MainOf(st.thr[t]).Some? ==> MainOf(st.thr[t]) == sp
    requires sp.Some? ==> Busy(st', sp.value)
    requires so in st.socks
    requires var k, k' := st.socks[so], st'.socks[so];
             && (k.splice.Some? && k.splice != sp ==>
                   (k'.avail <= k.avail || k'.rcvLock.Some?) && (k.rcvLock.Some? ==> k'.rcvLock.Some?))
             && (k.back.Some? && k.back != sp ==>
                   (k'.space <= k.space || k'.sndLock.Some?) && (k.sndLock.Some? ==> k'.sndLock.Some?))
    ensures NoWorkLost(st')
  {
    hide Moves, ThreadsOk, SplicesOk, SocketsOk, QueuesOk, PointersOk, BusyOk, MainOf, HoldsMutex;
    forall x | x in st'.sps ensures Busy(st', x) {
      if Some(x) != sp {
        BusyAt(st, x);
        MainOnly(st.thr[t], x);
        GatedPointers(st, x);
        OtherBusy(st, st', t, x);
      }
    }
  }

  /** A splice that is neither idle nor about to be is no concern. */
  lemma NotIdle(st: State, sp: SpId)
    requires Safe(st) && sp in st.sps && st.sps[sp].state != Idle
    requires st.sps[sp].mtx.Some? && st.sps[sp].state == Running ==>
               st.sps[sp].mtx.value in st.thr && !st.thr[st.sps[sp].mtx.value].GoIdle?
    ensures Busy(st, sp)
  {
    hide Moves, ThreadsOk, SplicesOk, SocketsOk, QueuesOk, RestOk;
    SpAt(st, sp);
    var s := st.sps[sp];
    if s.mtx.Some? { PcAt(st, s.mtx.value); }
  }

  // ---- Steps ----

  lemma WakeBusy(st: State, t: Tid)
    requires Safe(st) && NoWorkLost(st) && CanWake(st, t) && Safe(DoWake(st, t))
    ensures NoWorkLost(DoWake(st, t))
  {
    hide Safe, NoWorkLost, Moves;
    var pc, st' := st.thr[t], DoWake(st, t);
    if st'.socks == st.socks {
      StillBusy(st, st', t, None);
    } else {
      StillBusySock(st, st', t, None, pc.so);
    }
  }

  lemma LockToDispatchBusy(st: State, t: Tid)
    requires Safe(st) && NoWorkLost(st) && CanLockToDispatch(st, t) && Safe(DoLockToDispatch(st, t))
    ensures NoWorkLost(DoLockToDispatch(st, t))
  {
    hide Moves, ThreadsOk, SplicesOk, SocketsOk, QueuesOk, NoWorkLost, RestOk;
    var pc, st' := st.thr[t], DoLockToDispatch(st, t);
    PcAt(st, t);
    SpAt(st, pc.sp);
    assert Busy(st', pc.sp);
    hide PcOk, SpOk;
    StillBusySock(st, st', t, Some(pc.sp), pc.so);
  }

  /** Becoming idle is safe: data seen missing, or space seen missing, is still missing or
      its arrival still holds the buffer lock. */
  lemma SetIdleBusy(st: State, t: Tid)
    requires Safe(st) && NoWorkLost(st) && CanSetIdle(st, t) && Safe(DoSetIdle(st, t))
    ensures NoWorkLost(DoSetIdle(st, t))
  {
    hide Moves, ThreadsOk, SplicesOk, SocketsOk, QueuesOk, NoWorkLost, RestOk;
    var pc, st' := st.thr[t], DoSetIdle(st, t);
    PcAt(st, t);
    SpAt(st, pc.sp);
    BusyAt(st, pc.sp);
    assert Busy(st', pc.sp);
    hide PcOk, SpOk, Busy;
    StillBusy(st, st', t, Some(pc.sp));
  }

  lemma MoveBusy(st: State, t: Tid, n: nat, m: nat, stop: bool)
    requires Safe(st) && NoWorkLost(st) && CanMove(st, t, n, m) && Safe(DoMove(st, t, n, m, stop))
    ensures NoWorkLost(DoMove(st, t, n, m, stop))
  {
    hide Moves, ThreadsOk, SplicesOk, SocketsOk, QueuesOk, NoWorkLost, RestOk, PointersOk, BusyOk, HoldsMutex;
    var st' := DoMove(st, t, n, m, stop);
    forall x | x in st'.sps ensures Busy(st', x) {
      BusyAt(st, x);
      GatedPointers(st, x);
      assert !HoldsMutex(st.thr[t], x) by { MovingHoldsNothing(st.thr[t], x); }
      OtherBusy(st, st', t, x);
    }
    NoWorkLostFrom(st');
  }

  lemma MovingHoldsNothing(pc: Pc, x: SpId)
    requires pc.Moving?
    ensures !HoldsMutex(pc, x)
  {
  }

  lemma NoWorkLostFrom(st: State)
    requires forall x :: x in st.sps ==> Busy(st, x)
    ensures NoWorkLost(st)
  {
    hide BusyOk, PointersOk;
  }

  lemma AppendBusy(st: State, t: Tid, so: SockId, n: nat)
    requires Safe(st) && NoWorkLost(st) && CanAppend(st, t, so) && Safe(DoAppend(st, t, so, n))
    ensures NoWorkLost(DoAppend(st, t, so, n))
  {
    hide Moves, ThreadsOk, SplicesOk, SocketsOk, QueuesOk, NoWorkLost, RestOk, PointersOk, BusyOk;
    var pc, st' := st.thr[t], DoAppend(st, t, so, n);
    PcAt(st, t);
    StillBusySock(st, st', t, None, so);
  }

  lemma DropBusy(st: State, t: Tid, so: SockId, n: nat)
    requires Safe(st) && NoWorkLost(st) && CanDrop(st, t, so) && Safe(DoDrop(st, t, so, n))
    ensures NoWorkLost(DoDrop(st, t, so, n))
  {
    hide Moves, ThreadsOk, SplicesOk, SocketsOk, QueuesOk, NoWorkLost, RestOk, PointersOk, BusyOk;
    var pc, st' := st.thr[t], DoDrop(st, t, so, n);
    PcAt(st, t);
    StillBusySock(st, st', t, None, so);
  }

  lemma DispatchBusy(st: State, t: Tid)
    requires Safe(st) && NoWorkLost(st) && CanDispatch(st, t) && Safe(DoDispatch(st, t))
    ensures NoWorkLost(DoDispatch(st, t))
  {
    hide Moves, ThreadsOk, SplicesOk, SocketsOk, QueuesOk, NoWorkLost, RestOk, PointersOk, BusyOk;
    var pc, st' := st.thr[t], DoDispatch(st, t);
    PcAt(st, t);
    NotIdle(st', pc.sp);
    StillBusy(st, st', t, Some(pc.sp));
  }

  lemma EnqueueBusy(st: State, t: Tid)
    requires Safe(st) && NoWorkLost(st) && CanEnqueue(st, t) && Safe(DoEnqueue(st, t))
    ensures NoWorkLost(DoEnqueue(st, t))
  {
    hide Moves, ThreadsOk, SplicesOk, SocketsOk, QueuesOk, NoWorkLost, RestOk, PointersOk, BusyOk;
    var pc, st' := st.thr[t], DoEnqueue(st, t);
    PcAt(st, t);
    NotIdle(st', pc.sp);
    StillBusy(st, st', t, Some(pc.sp));
  }

  lemma BeginXferBusy(st: State, t: Tid)
    requires Safe(st) && NoWorkLost(st) && CanBeginXfer(st, t) && Safe(DoBeginXfer(st, t))
    ensures NoWorkLost(DoBeginXfer(st, t))
  {
    hide Moves, ThreadsOk, SplicesOk, SocketsOk, QueuesOk, NoWorkLost, RestOk, PointersOk, BusyOk;
    var pc, st' := st.thr[t], DoBeginXfer(st, t);
    PcAt(st, t);
    NotIdle(st', pc.sp);
    StillBusy(st, st', t, Some(pc.sp));
  }

  lemma RelockBusy(st: State, t: Tid)
    requires Safe(st) && NoWorkLost(st) && CanRelock(st, t) && Safe(DoRelock(st, t))
    ensures NoWorkLost(DoRelock(st, t))
  {
    hide Moves, ThreadsOk, SplicesOk, SocketsOk, QueuesOk, NoWorkLost, RestOk, PointersOk, BusyOk;
    var pc, st' := st.thr[t], DoRelock(st, t);
    PcAt(st, t);
    NotIdle(st', pc.sp);
    StillBusy(st, st', t, Some(pc.sp));
  }

  lemma FailSetupBusy(st: State, t: Tid)
    requires Safe(st) && NoWorkLost(st) && CanFailSetup(st, t) && Safe(DoFailSetup(st, t))
    ensures NoWorkLost(DoFailSetup(st, t))
  {
    hide Moves, ThreadsOk, SplicesOk, SocketsOk, QueuesOk, NoWorkLost, RestOk, PointersOk, BusyOk;
    var pc, st' := st.thr[t], DoFailSetup(st, t);
    PcAt(st, t);
    NotIdle(st', pc.sp);
    StillBusy(st, st', t, Some(pc.sp));
  }

  lemma FirstXferBusy(st: State, t: Tid)
    requires Safe(st) && NoWorkLost(st) && CanFirstXfer(st, t) && Safe(DoFirstXfer(st, t))
    ensures NoWorkLost(DoFirstXfer(st, t))
  {
    hide Moves, ThreadsOk, SplicesOk, SocketsOk, QueuesOk, NoWorkLost, RestOk, PointersOk, BusyOk;
    var pc, st' := st.thr[t], DoFirstXfer(st, t);
    PcAt(st, t);
    NotIdle(st', pc.sp);
    StillBusy(st, st', t, Some(pc.sp));
  }

  lemma SwitchStateBusy(st: State, t: Tid)
    requires Safe(st) && NoWorkLost(st) && CanSwitchState(st, t) && Safe(DoSwitchState(st, t))
    ensures NoWorkLost(DoSwitchState(st, t))
  {
    hide Moves, ThreadsOk, SplicesOk, SocketsOk, QueuesOk, NoWorkLost, RestOk, PointersOk, BusyOk;
    var pc, st' := st.thr[t], DoSwitchState(st, t);
    PcAt(st, t);
    NotIdle(st', pc.sp);
    StillBusy(st, st', t, Some(pc.sp));
  }

  lemma LockNextBusy(st: State, t: Tid)
    requires Safe(st) && NoWorkLost(st) && CanLockNext(st, t) && Safe(DoLockNext(st, t))
    ensures NoWorkLost(DoLockNext(st, t))
  {
    hide Moves, ThreadsOk, SplicesOk, SocketsOk, QueuesOk, NoWorkLost, RestOk, PointersOk, BusyOk;
    var pc, st' := st.thr[t], DoLockNext(st, t);
    PcAt(st, t);
    HeadOfRest(st, t, pc.rest);
    NotIdle(st', pc.rest[0]);
    StillBusy(st, st', t, Some(pc.rest[0]));
  }

  lemma WaitBusy(st: State, t: Tid)
    requires Safe(st) && NoWorkLost(st) && CanWait(st, t) && Safe(DoWait(st, t))
    ensures NoWorkLost(DoWait(st, t))
  {
    hide Moves, ThreadsOk, SplicesOk, SocketsOk, QueuesOk, NoWorkLost, RestOk, PointersOk, BusyOk;
    var pc, st' := st.thr[t], DoWait(st, t);
    PcAt(st, t);
    UngatedIsFine(st', pc.sp);
    StillBusy(st, st', t, Some(pc.sp));
  }

  lemma DropSrcBusy(st: State, t: Tid)
    requires Safe(st) && NoWorkLost(st) && CanDropSrc(st, t) && Safe(DoDropSrc(st, t))
    ensures NoWorkLost(DoDropSrc(st, t))
  {
    hide Moves, ThreadsOk, SplicesOk, SocketsOk, QueuesOk, NoWorkLost, RestOk, PointersOk, BusyOk;
    var pc, st' := st.thr[t], DoDropSrc(st, t);
    PcAt(st, t);
    UngatedIsFine(st', pc.sp);
    StillBusy(st, st', t, Some(pc.sp));
  }

  lemma DropDstBusy(st: State, t: Tid)
    requires Safe(st) && NoWorkLost(st) && CanDropDst(st, t) && Safe(DoDropDst(st, t))
    ensures NoWorkLost(DoDropDst(st, t))
  {
    hide Moves, ThreadsOk, SplicesOk, SocketsOk, QueuesOk, NoWorkLost, RestOk, PointersOk, BusyOk;
    var pc, st' := st.thr[t], DoDropDst(st, t);
    PcAt(st, t);
    UngatedIsFine(st', pc.sp);
    StillBusy(st, st', t, Some(pc.sp));
  }

  lemma FreeBusy(st: State, t: Tid)
    requires Safe(st) && NoWorkLost(st) && CanFree(st, t) && Safe(DoFree(st, t))
    ensures NoWorkLost(DoFree(st, t))
  {
    hide Moves, ThreadsOk, SplicesOk, SocketsOk, QueuesOk, NoWorkLost, RestOk, PointersOk, BusyOk;
    var pc, st' := st.thr[t], DoFree(st, t);
    PcAt(st, t);
    UngatedIsFine(st', pc.sp);
    StillBusy(st, st', t, Some(pc.sp));
  }

  lemma DecideBusy(st: State, t: Tid, full: bool)
    requires Safe(st) && NoWorkLost(st) && CanDecide(st, t) && Safe(DoDecide(st, t, full))
    ensures NoWorkLost(DoDecide(st, t, full))
  {
    hide Moves, ThreadsOk, SplicesOk, SocketsOk, QueuesOk, NoWorkLost, RestOk, PointersOk, BusyOk;
    var pc, st' := st.thr[t], DoDecide(st, t, full);
    PcAt(st, t);
    SpAt(st, pc.sp);
    DecideIdle(st, t, full);
    StillBusy(st, st', t, Some(pc.sp));
  }

  lemma CheckSpaceBusy(st: State, t: Tid)
    requires Safe(st) && NoWorkLost(st) && CanCheckSpace(st, t) && Safe(DoCheckSpace(st, t))
    ensures NoWorkLost(DoCheckSpace(st, t))
  {
    hide Moves, ThreadsOk, SplicesOk, SocketsOk, QueuesOk, NoWorkLost, RestOk, PointersOk, BusyOk;
    var pc, st' := st.thr[t], DoCheckSpace(st, t);
    PcAt(st, t);
    SpAt(st, pc.sp);
    CheckIdle(st, t);
    StillBusy(st, st', t, Some(pc.sp));
  }

  /** Seeing no data with the splice mutex held. */
  lemma DecideIdle(st: State, t: Tid, full: bool)
    requires Safe(st) && CanDecide(st, t) && Safe(DoDecide(st, t, full))
    ensures Busy(DoDecide(st, t, full), st.thr[t].sp)
  {
    hide Moves, ThreadsOk, SplicesOk, SocketsOk, QueuesOk, RestOk;
    PcAt(st, t);
    SpAt(st, st.thr[t].sp);
    var st' := DoDecide(st, t, full);
    if !st'.thr[t].GoIdle? {
      hide Busy;
      NotIdle(st', st.thr[t].sp);
    }
  }

  /** Seeing no space with the splice mutex held. */
  lemma CheckIdle(st: State, t: Tid)
    requires Safe(st) && CanCheckSpace(st, t) && Safe(DoCheckSpace(st, t))
    ensures Busy(DoCheckSpace(st, t), st.thr[t].sp)
  {
    hide Moves, ThreadsOk, SplicesOk, SocketsOk, QueuesOk, RestOk;
    PcAt(st, t);
    SpAt(st, st.thr[t].sp);
    var st' := DoCheckSpace(st, t);
    if !st'.thr[t].GoIdle? {
      hide Busy;
      NotIdle(st', st.thr[t].sp);
    }
  }

  lemma AllocBusy(st: State, t: Tid, sp: SpId, src: SockId, dst: SockId, w: nat)
    requires Safe(st) && NoWorkLost(st) && CanAlloc(st, t, sp, src, dst, w) && Safe(DoAlloc(st, t, sp, src, dst, w))
    ensures NoWorkLost(DoAlloc(st, t, sp, src, dst, w))
  {
    hide Moves, ThreadsOk, SplicesOk, SocketsOk, QueuesOk, NoWorkLost, RestOk, PointersOk, BusyOk;
    var pc, st' := st.thr[t], DoAlloc(st, t, sp, src, dst, w);
    PcAt(st, t);
    UngatedIsFine(st', sp);
    StillBusy(st, st', t, Some(sp));
  }

  lemma PublishSrcBusy(st: State, t: Tid, refuse: bool)
    requires Safe(st) && NoWorkLost(st) && CanPublishSrc(st, t) && Safe(DoPublishSrc(st, t, refuse))
    ensures NoWorkLost(DoPublishSrc(st, t, refuse))
  {
    hide Moves, ThreadsOk, SplicesOk, SocketsOk, QueuesOk, NoWorkLost, RestOk, PointersOk, BusyOk;
    var pc, st' := st.thr[t], DoPublishSrc(st, t, refuse);
    PcAt(st, t);
    UngatedIsFine(st', pc.sp);
    if st'.socks == st.socks {
      StillBusy(st, st', t, Some(pc.sp));
    } else {
      StillBusySock(st, st', t, Some(pc.sp), st.sps[pc.sp].src);
    }
  }

  lemma PublishDstBusy(st: State, t: Tid, refuse: bool)
    requires Safe(st) && NoWorkLost(st) && CanPublishDst(st, t) && Safe(DoPublishDst(st, t, refuse))
    ensures NoWorkLost(DoPublishDst(st, t, refuse))
  {
    hide Moves, ThreadsOk, SplicesOk, SocketsOk, QueuesOk, NoWorkLost, RestOk, PointersOk, BusyOk;
    var pc, st' := st.thr[t], DoPublishDst(st, t, refuse);
    PcAt(st, t);
    UngatedIsFine(st', pc.sp);
    if st'.socks == st.socks {
      StillBusy(st, st', t, Some(pc.sp));
    } else {
      StillBusySock(st, st', t, Some(pc.sp), st.sps[pc.sp].dst.value);
    }
  }

  lemma CallUnspliceBusy(st: State, t: Tid, so: SockId)
    requires Safe(st) && NoWorkLost(st) && CanCallUnsplice(st, t, so) && Safe(DoCallUnsplice(st, t, so))
    ensures NoWorkLost(DoCallUnsplice(st, t, so))
  {
    hide Moves, ThreadsOk, SplicesOk, SocketsOk, QueuesOk, NoWorkLost, RestOk, PointersOk, BusyOk;
    var pc, st' := st.thr[t], DoCallUnsplice(st, t, so);
    PcAt(st, t);
    StillBusy(st, st', t, None);
  }

  lemma HideBusy(st: State, t: Tid)
    requires Safe(st) && NoWorkLost(st) && CanHide(st, t) && Safe(DoHide(st, t))
    ensures NoWorkLost(DoHide(st, t))
  {
    hide Moves, ThreadsOk, SplicesOk, SocketsOk, QueuesOk, NoWorkLost, RestOk, PointersOk, BusyOk;
    var pc, st' := st.thr[t], DoHide(st, t);
    PcAt(st, t);
    SockAt(st, pc.so);
    var k := st.socks[pc.so];
    if st'.socks == st.socks {
      StillBusy(st, st', t, None);
    } else {
      UngatedIsFine(st', k.splice.value);
      StillBusySock(st, st', t, k.splice, pc.so);
    }
  }

  lemma DetachDstBusy(st: State, t: Tid)
    requires Safe(st) && NoWorkLost(st) && CanDetachDst(st, t) && Safe(DoDetachDst(st, t))
    ensures NoWorkLost(DoDetachDst(st, t))
  {
    hide Moves, ThreadsOk, SplicesOk, SocketsOk, QueuesOk, NoWorkLost, RestOk, PointersOk, BusyOk;
    var pc, st' := st.thr[t], DoDetachDst(st, t);
    PcAt(st, t);
    UngatedIsFine(st', pc.sp);
    if st'.socks == st.socks {
      StillBusy(st, st', t, Some(pc.sp));
    } else {
      StillBusySock(st, st', t, Some(pc.sp), st.sps[pc.sp].dst.value);
    }
  }

  lemma TakeQueueBusy(st: State, t: Tid, w: nat)
    requires Safe(st) && NoWorkLost(st) && CanTakeQueue(st, t, w) && Safe(DoTakeQueue(st, t, w))
    ensures NoWorkLost(DoTakeQueue(st, t, w))
  {
    hide Moves, ThreadsOk, SplicesOk, SocketsOk, QueuesOk, NoWorkLost, RestOk, PointersOk, BusyOk;
    var pc, st' := st.thr[t], DoTakeQueue(st, t, w);
    PcAt(st, t);
    forall x | x in st'.sps ensures Busy(st', x) {
      BusyAt(st, x);
      GatedPointers(st, x);
      OtherBusy(st, st', t, x);
    }
    NoWorkLostFrom(st');
  }

  lemma BufferBusy(st: State, e: BufferStep)
    requires Safe(st) && NoWorkLost(st) && BufferEnabled(st, e) && Safe(ApplyBuffer(st, e))
    ensures NoWorkLost(ApplyBuffer(st, e))
  {
    hide Safe, NoWorkLost, Moves,
         CanAppend, CanDrop, CanWake, CanLockToDispatch, CanDispatch, CanEnqueue,
         DoAppend, DoDrop, DoWake, DoLockToDispatch, DoDispatch, DoEnqueue;
    match e
    case Append(t, so, n) => AppendBusy(st, t, so, n);
    case Drop(t, so, n) => DropBusy(st, t, so, n);
    case Wake(t) => WakeBusy(st, t);
    case LockToDispatch(t) => LockToDispatchBusy(st, t);
    case Dispatch(t) => DispatchBusy(st, t);
    case Enqueue(t) => EnqueueBusy(st, t);
  }

  lemma TransferBusy(st: State, e: XferStep)
    requires Safe(st) && NoWorkLost(st) && TransferEnabled(st, e) && Safe(ApplyTransfer(st, e))
    ensures NoWorkLost(ApplyTransfer(st, e))
  {
    hide Safe, NoWorkLost, Moves,
         CanTakeQueue, CanLockNext, CanBeginXfer, CanMove, CanRelock, CanDecide,
         CanCheckSpace, CanSetIdle,
         DoTakeQueue, DoLockNext, DoBeginXfer, DoMove, DoRelock, DoDecide,
         DoCheckSpace, DoSetIdle;
    match e
    case TakeQueue(t, w) => TakeQueueBusy(st, t, w);
    case LockNext(t) => LockNextBusy(st, t);
    case BeginXfer(t) => BeginXferBusy(st, t);
    case Move(t, n, m, stop) => MoveBusy(st, t, n, m, stop);
    case Relock(t) => RelockBusy(st, t);
    case Decide(t, full) => DecideBusy(st, t, full);
    case CheckSpace(t) => CheckSpaceBusy(st, t);
    case SetIdle(t) => SetIdleBusy(st, t);
  }

  lemma SetupBusy(st: State, e: SetupStep)
    requires Safe(st) && NoWorkLost(st) && SetupEnabled(st, e) && Safe(ApplySetup(st, e))
    ensures NoWorkLost(ApplySetup(st, e))
  {
    hide Safe, NoWorkLost, Moves,
         CanAlloc, CanPublishSrc, CanPublishDst, CanFailSetup, CanFirstXfer,
         DoAlloc, DoPublishSrc, DoPublishDst, DoFailSetup, DoFirstXfer;
    match e
    case Alloc(t, sp, src, dst, w) => AllocBusy(st, t, sp, src, dst, w);
    case PublishSrc(t, refuse) => PublishSrcBusy(st, t, refuse);
    case PublishDst(t, refuse) => PublishDstBusy(st, t, refuse);
    case FailSetup(t) => FailSetupBusy(st, t);
    case FirstXfer(t) => FirstXferBusy(st, t);
  }

  lemma CloseBusy(st: State, e: CloseStep)
    requires Safe(st) && NoWorkLost(st) && CloseEnabled(st, e) && Safe(ApplyClose(st, e))
    ensures NoWorkLost(ApplyClose(st, e))
  {
    hide Safe, NoWorkLost, Moves,
         CanCallUnsplice, CanHide, CanDetachDst, CanSwitchState, CanWait, CanDropSrc,
         CanDropDst, CanFree,
         DoCallUnsplice, DoHide, DoDetachDst, DoSwitchState, DoWait, DoDropSrc,
         DoDropDst, DoFree;
    match e
    case CallUnsplice(t, so) => CallUnspliceBusy(st, t, so);
    case Hide(t) => HideBusy(st, t);
    case DetachDst(t) => DetachDstBusy(st, t);
    case SwitchState(t) => SwitchStateBusy(st, t);
    case Wait(t) => WaitBusy(st, t);
    case DropSrc(t) => DropSrcBusy(st, t);
    case DropDst(t) => DropDstBusy(st, t);
    case Free(t) => FreeBusy(st, t);
  }

  lemma BusyStep(st: State, e: Step)
    requires Safe(st) && NoWorkLost(st) && Enabled(st, e)
    ensures NoWorkLost(Apply(st, e))
  {
    SafeStep(st, e);
    hide Safe, NoWorkLost, Moves, BufferEnabled, TransferEnabled, SetupEnabled, CloseEnabled,
         ApplyBuffer, ApplyTransfer, ApplySetup, ApplyClose;
    match e
    case Buffer(b) => BufferBusy(st, b);
    case Transfer(x) => TransferBusy(st, x);
    case Setup(u) => SetupBusy(st, u);
    case Close(c) => CloseBusy(st, c);
  }

  lemma {:induction false} BusyRun(run: seq<State>, steps: seq<Step>, i: nat)
    requires IsRun(run, steps) && i < |run|
    ensures NoWorkLost(run[i])
  {
    hide Safe, NoWorkLost, Enabled, Apply;
    if i == 0 {
      assert NoWorkLost(run[0]) by { NothingYet(run[0]); }
    } else {
      BusyRun(run, steps, i - 1);
      SafeRun(run, steps, i - 1);
      BusyStep(run[i - 1], steps[i - 1]);
    }
  }

  lemma NothingYet(st: State)
    requires Initial(st)
    ensures NoWorkLost(st)
  {
  }

  /** In every interleaving, an idle splice that its sockets still point at, with data in the
      source and room in the sink, has a push or a pull on its way: a thread that changed one
      of the buffers and still holds its lock, or one that is dispatching the splice. */
  lemma NoLostWakeup(run: seq<State>, steps: seq<Step>, i: nat, sp: SpId)
    requires IsRun(run, steps) && i < |run| && sp in run[i].sps
    requires run[i].sps[sp].src in run[i].socks
             && run[i].socks[run[i].sps[sp].src].splice == Some(sp) && run[i].sps[sp].state == Idle
    ensures run[i].sps[sp].dst.Some? && run[i].sps[sp].dst.value in run[i].socks
    ensures run[i].socks[run[i].sps[sp].src].avail > 0 && run[i].socks[run[i].sps[sp].dst.value].space > 0
            ==> WakeupDue(run[i], sp)
  {
    hide IsRun, ThreadsOk, SplicesOk, SocketsOk, QueuesOk, NoWorkLost, CountsOk, OwnersOk, WakeupDue;
    SafeRun(run, steps, i);
    BusyRun(run, steps, i);
    SpAt(run[i], sp);
    SockAt(run[i], run[i].sps[sp].src);
    BusyAt(run[i], sp);
  }
}
