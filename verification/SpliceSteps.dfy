/** Every step of the splice protocol keeps the invariant, and none fails an assertion. */
module SpliceSteps {
  import opened Basics
  import opened SpliceMachine
  import opened SpliceInvariant
  import opened SpliceFrame

  lemma AppendStep(st: State, t: Tid, so: SockId, n: nat)
    requires Safe(st) && CanAppend(st, t, so)
    ensures Safe(DoAppend(st, t, so, n))
  {
    hide Moves, ThreadsOk, SplicesOk, SocketsOk, QueuesOk, RestOk;
    PcAt(st, t);
    var pc := st.thr[t];
    SockAt(st, so);
    var k := st.socks[so];
    NextSockSafe(st, t, Appended(so), so, k.(avail := k.avail + n, rcvLock := Some(t)));
  }

  lemma DropStep(st: State, t: Tid, so: SockId, n: nat)
    requires Safe(st) && CanDrop(st, t, so)
    ensures Safe(DoDrop(st, t, so, n))
  {
    hide Moves, ThreadsOk, SplicesOk, SocketsOk, QueuesOk, RestOk;
    PcAt(st, t);
    var pc := st.thr[t];
    SockAt(st, so);
    var k := st.socks[so];
    NextSockSafe(st, t, Dropped(so), so, k.(space := k.space + n, sndLock := Some(t)));
  }

  lemma WakeStep(st: State, t: Tid)
    requires Safe(st) && CanWake(st, t)
    ensures Safe(DoWake(st, t))
  {
    hide Moves, ThreadsOk, SplicesOk, SocketsOk, QueuesOk, RestOk;
    PcAt(st, t);
    var pc := st.thr[t];
    SockAt(st, pc.so);
    var k := st.socks[pc.so];
    if pc.Appended? && k.splice.Some? {
      NextSafe(st, t, PushGot(pc.so, k.splice.value));
    } else if pc.Appended? {
      NextSockSafe(st, t, Work([]), pc.so, k.(rcvLock := None));
    } else if k.back.Some? {
      NextSafe(st, t, PullGot(pc.so, k.back.value));
    } else {
      NextSockSafe(st, t, Work([]), pc.so, k.(sndLock := None));
    }
  }

  lemma LockToDispatchStep(st: State, t: Tid)
    requires Safe(st) && CanLockToDispatch(st, t)
    ensures Safe(DoLockToDispatch(st, t))
  {
    hide Moves, ThreadsOk, SplicesOk, SocketsOk, QueuesOk, RestOk;
    PcAt(st, t);
    var pc := st.thr[t];
    SockAt(st, pc.so);
    SpAt(st, pc.sp);
    var k := st.socks[pc.so];
    RestAfter(st, t, [], pc.sp, st.sps[pc.sp].(mtx := Some(t)),
              NextBoth(st, t, Dispatching(pc.sp), pc.sp, st.sps[pc.sp].(mtx := Some(t)), pc.so,
                       if pc.PushGot? then k.(rcvLock := None) else k.(sndLock := None)));
    NextBothSafe(st, t, Dispatching(pc.sp), pc.sp, st.sps[pc.sp].(mtx := Some(t)),
                 pc.so, if pc.PushGot? then k.(rcvLock := None) else k.(sndLock := None));
  }

  lemma DispatchStep(st: State, t: Tid)
    requires Safe(st) && CanDispatch(st, t)
    ensures Safe(DoDispatch(st, t))
  {
    hide Moves, ThreadsOk, SplicesOk, SocketsOk, QueuesOk, RestOk;
    PcAt(st, t);
    var pc := st.thr[t];
    SpAt(st, pc.sp);
    var s := st.sps[pc.sp];
    if s.state == Idle {
      RestAfter(st, t, [], pc.sp, s.(state := Queued, mtx := None, ticket := With(t)),
                NextSp(st, t, AsyncDue(pc.sp, []), pc.sp, s.(state := Queued, mtx := None, ticket := With(t))));
      NextSpSafe(st, t, AsyncDue(pc.sp, []), pc.sp, s.(state := Queued, mtx := None, ticket := With(t)));
    } else {
      RestAfter(st, t, [], pc.sp, s.(mtx := None), NextSp(st, t, Work([]), pc.sp, s.(mtx := None)));
      NextSpSafe(st, t, Work([]), pc.sp, s.(mtx := None));
    }
  }

  lemma LockNextStep(st: State, t: Tid)
    requires Safe(st) && CanLockNext(st, t)
    ensures Safe(DoLockNext(st, t))
  {
    hide Moves, ThreadsOk, SplicesOk, SocketsOk, QueuesOk, RestOk;
    PcAt(st, t);
    var pc := st.thr[t];
    var sp := pc.rest[0];
    SpAt(st, sp);
    HeadOfRest(st, t, pc.rest);
    RestAfter(st, t, pc.rest[1..], sp, st.sps[sp].(mtx := Some(t)),
              NextSp(st, t, Xfer(sp, pc.rest[1..]), sp, st.sps[sp].(mtx := Some(t))));
    NextSpSafe(st, t, Xfer(sp, pc.rest[1..]), sp, st.sps[sp].(mtx := Some(t)));
  }

  lemma BeginXferStep(st: State, t: Tid)
    requires Safe(st) && CanBeginXfer(st, t)
    ensures Safe(DoBeginXfer(st, t))
  {
    hide Moves, ThreadsOk, SplicesOk, SocketsOk, QueuesOk, RestOk;
    PcAt(st, t);
    var pc := st.thr[t];
    SpAt(st, pc.sp);
    var s := st.sps[pc.sp];
    if s.state == Closing {
      RestAfter(st, t, pc.rest, pc.sp, s.(state := Closed, mtx := None, ticket := NoTicket),
                NextSp(st, t, Work(pc.rest), pc.sp, s.(state := Closed, mtx := None, ticket := NoTicket)));
      NextSpSafe(st, t, Work(pc.rest), pc.sp, s.(state := Closed, mtx := None, ticket := NoTicket));
    } else {
      RestAfter(st, t, pc.rest, pc.sp, s.(state := Running, mtx := None),
                NextSp(st, t, Moving(pc.sp, pc.rest), pc.sp, s.(state := Running, mtx := None)));
      NextSpSafe(st, t, Moving(pc.sp, pc.rest), pc.sp, s.(state := Running, mtx := None));
    }
  }

  lemma RelockStep(st: State, t: Tid)
    requires Safe(st) && CanRelock(st, t)
    ensures Safe(DoRelock(st, t))
  {
    hide Moves, ThreadsOk, SplicesOk, SocketsOk, QueuesOk, RestOk;
    PcAt(st, t);
    var pc := st.thr[t];
    SpAt(st, pc.sp);
    RestAfter(st, t, pc.rest, pc.sp, st.sps[pc.sp].(mtx := Some(t)),
              NextSp(st, t, Deciding(pc.sp, pc.rest, pc.stop), pc.sp, st.sps[pc.sp].(mtx := Some(t))));
    NextSpSafe(st, t, Deciding(pc.sp, pc.rest, pc.stop), pc.sp, st.sps[pc.sp].(mtx := Some(t)));
  }

  lemma DecideStep(st: State, t: Tid, full: bool)
    requires Safe(st) && CanDecide(st, t)
    ensures Safe(DoDecide(st, t, full))
  {
    hide Moves, ThreadsOk, SplicesOk, SocketsOk, QueuesOk, RestOk;
    PcAt(st, t);
    var pc := st.thr[t];
    SpAt(st, pc.sp);
    var s := st.sps[pc.sp];
    if s.state == Closing {
      RestAfter(st, t, pc.rest, pc.sp, s.(state := Closed, mtx := None, ticket := NoTicket),
                NextSp(st, t, Work(pc.rest), pc.sp, s.(state := Closed, mtx := None, ticket := NoTicket)));
      NextSpSafe(st, t, Work(pc.rest), pc.sp, s.(state := Closed, mtx := None, ticket := NoTicket));
    } else if pc.stop || full {
      RestAfter(st, t, pc.rest, pc.sp, s.(state := Exception, mtx := None, ticket := NoTicket),
                NextSp(st, t, Unsplice(s.src, pc.rest), pc.sp,
                       s.(state := Exception, mtx := None, ticket := NoTicket)));
      NextSpSafe(st, t, Unsplice(s.src, pc.rest), pc.sp, s.(state := Exception, mtx := None, ticket := NoTicket));
    } else if st.socks[s.src].avail > 0 {
      NextSafe(st, t, ReadSpace(pc.sp, pc.rest));
    } else {
      NextSafe(st, t, GoIdle(pc.sp, pc.rest, NoData));
    }
  }

  lemma CheckSpaceStep(st: State, t: Tid)
    requires Safe(st) && CanCheckSpace(st, t)
    ensures Safe(DoCheckSpace(st, t))
  {
    hide Moves, ThreadsOk, SplicesOk, SocketsOk, QueuesOk, RestOk;
    PcAt(st, t);
    var pc := st.thr[t];
    SpAt(st, pc.sp);
    var s := st.sps[pc.sp];
    if st.socks[s.dst.value].space > 0 {
      RestAfter(st, t, pc.rest, pc.sp, s.(state := Queued, mtx := None),
                NextSp(st, t, AsyncDue(pc.sp, pc.rest), pc.sp, s.(state := Queued, mtx := None)));
      NextSpSafe(st, t, AsyncDue(pc.sp, pc.rest), pc.sp, s.(state := Queued, mtx := None));
    } else {
      NextSafe(st, t, GoIdle(pc.sp, pc.rest, NoSpace));
    }
  }

  lemma SetIdleStep(st: State, t: Tid)
    requires Safe(st) && CanSetIdle(st, t)
    ensures Safe(DoSetIdle(st, t))
  {
    hide Moves, ThreadsOk, SplicesOk, SocketsOk, QueuesOk, RestOk;
    PcAt(st, t);
    var pc := st.thr[t];
    SpAt(st, pc.sp);
    RestAfter(st, t, pc.rest, pc.sp, st.sps[pc.sp].(state := Idle, mtx := None, ticket := NoTicket),
              NextSp(st, t, Work(pc.rest), pc.sp, st.sps[pc.sp].(state := Idle, mtx := None, ticket := NoTicket)));
    NextSpSafe(st, t, Work(pc.rest), pc.sp, st.sps[pc.sp].(state := Idle, mtx := None, ticket := NoTicket));
  }

  lemma PublishSrcStep(st: State, t: Tid, refuse: bool)
    requires Safe(st) && CanPublishSrc(st, t)
    ensures Safe(DoPublishSrc(st, t, refuse))
  {
    hide Moves, ThreadsOk, SplicesOk, SocketsOk, QueuesOk, RestOk;
    PcAt(st, t);
    var pc := st.thr[t];
    SpAt(st, pc.sp);
    var s := st.sps[pc.sp];
    SockAt(st, s.src);
    var k := st.socks[s.src];
    if refuse || k.splice.Some? {
      RestAfter(st, t, [], pc.sp, s.(setup := None, frees := s.frees + 1),
                NextSp(st, t, Work([]), pc.sp, s.(setup := None, frees := s.frees + 1)));
      NextSpSafe(st, t, Work([]), pc.sp, s.(setup := None, frees := s.frees + 1));
    } else {
      RestAfter(st, t, [], pc.sp, s.(srcTaken := s.srcTaken + 1),
                NextBoth(st, t, SetupDst(pc.sp), pc.sp, s.(srcTaken := s.srcTaken + 1), s.src,
                         k.(splice := Some(pc.sp))));
      NextBothSafe(st, t, SetupDst(pc.sp), pc.sp, s.(srcTaken := s.srcTaken + 1), s.src, k.(splice := Some(pc.sp)));
    }
  }

  lemma PublishDstStep(st: State, t: Tid, refuse: bool)
    requires Safe(st) && CanPublishDst(st, t)
    ensures Safe(DoPublishDst(st, t, refuse))
  {
    hide Moves, ThreadsOk, SplicesOk, SocketsOk, QueuesOk, RestOk;
    PcAt(st, t);
    var pc := st.thr[t];
    SpAt(st, pc.sp);
    var s := st.sps[pc.sp];
    SockAt(st, s.dst.value);
    var k := st.socks[s.dst.value];
    if refuse || k.back.Some? {
      NextSafe(st, t, SetupFail(pc.sp));
    } else {
      RestAfter(st, t, [], pc.sp, s.(attached := true, dstTaken := s.dstTaken + 1, mtx := Some(t)),
                NextBoth(st, t, SetupHeld(pc.sp), pc.sp,
                         s.(attached := true, dstTaken := s.dstTaken + 1, mtx := Some(t)),
                         s.dst.value, k.(back := Some(pc.sp))));
      NextBothSafe(st, t, SetupHeld(pc.sp), pc.sp, s.(attached := true, dstTaken := s.dstTaken + 1, mtx := Some(t)),
                   s.dst.value, k.(back := Some(pc.sp)));
    }
  }

  lemma FailSetupStep(st: State, t: Tid)
    requires Safe(st) && CanFailSetup(st, t)
    ensures Safe(DoFailSetup(st, t))
  {
    hide Moves, ThreadsOk, SplicesOk, SocketsOk, QueuesOk, RestOk;
    PcAt(st, t);
    var pc := st.thr[t];
    SpAt(st, pc.sp);
    var s := st.sps[pc.sp];
    RestAfter(st, t, [], pc.sp, s.(dst := None, state := Exception, setup := None),
              NextSp(st, t, Unsplice(s.src, []), pc.sp, s.(dst := None, state := Exception, setup := None)));
    NextSpSafe(st, t, Unsplice(s.src, []), pc.sp, s.(dst := None, state := Exception, setup := None));
  }

  lemma FirstXferStep(st: State, t: Tid)
    requires Safe(st) && CanFirstXfer(st, t)
    ensures Safe(DoFirstXfer(st, t))
  {
    hide Moves, ThreadsOk, SplicesOk, SocketsOk, QueuesOk, RestOk;
    PcAt(st, t);
    var pc := st.thr[t];
    SpAt(st, pc.sp);
    var s := st.sps[pc.sp];
    RestAfter(st, t, [], pc.sp, s.(state := Queued, setup := None, ticket := With(t)),
              NextSp(st, t, Xfer(pc.sp, []), pc.sp, s.(state := Queued, setup := None, ticket := With(t))));
    NextSpSafe(st, t, Xfer(pc.sp, []), pc.sp, s.(state := Queued, setup := None, ticket := With(t)));
  }

  lemma CallUnspliceStep(st: State, t: Tid, so: SockId)
    requires Safe(st) && CanCallUnsplice(st, t, so)
    ensures Safe(DoCallUnsplice(st, t, so))
  {
    hide Moves, ThreadsOk, SplicesOk, SocketsOk, QueuesOk, RestOk;
    PcAt(st, t);
    var pc := st.thr[t];
    NextSafe(st, t, Unsplice(so, []));
  }

  lemma HideStep(st: State, t: Tid)
    requires Safe(st) && CanHide(st, t)
    ensures Safe(DoHide(st, t))
  {
    hide Moves, ThreadsOk, SplicesOk, SocketsOk, QueuesOk, RestOk;
    PcAt(st, t);
    var pc := st.thr[t];
    SockAt(st, pc.so);
    var k := st.socks[pc.so];
    if k.splice == None || st.sps[k.splice.value].state == Init {
      NextSafe(st, t, Work(pc.rest));
    } else {
      var sp := k.splice.value;
      SpAt(st, sp);
      var s := st.sps[sp];
      RestAfter(st, t, pc.rest, sp, s.(closer := Some(t), unsplices := s.unsplices + 1),
                NextBoth(st, t, UnspDst(sp, pc.rest), sp, s.(closer := Some(t), unsplices := s.unsplices + 1), pc.so,
                         k.(splice := None)));
      NextBothSafe(st, t, UnspDst(sp, pc.rest), sp, s.(closer := Some(t), unsplices := s.unsplices + 1),
                   pc.so, k.(splice := None));
    }
  }

  lemma DetachDstStep(st: State, t: Tid)
    requires Safe(st) && CanDetachDst(st, t)
    ensures Safe(DoDetachDst(st, t))
  {
    hide Moves, ThreadsOk, SplicesOk, SocketsOk, QueuesOk, RestOk;
    PcAt(st, t);
    var pc := st.thr[t];
    SpAt(st, pc.sp);
    var s := st.sps[pc.sp];
    if s.dst == None {
      NextSafe(st, t, UnspState(pc.sp, pc.rest));
    } else {
      SockAt(st, s.dst.value);
      RestAfter(st, t, pc.rest, pc.sp, s.(attached := false),
                NextBoth(st, t, UnspState(pc.sp, pc.rest), pc.sp, s.(attached := false), s.dst.value,
                         st.socks[s.dst.value].(back := None)));
      NextBothSafe(st, t, UnspState(pc.sp, pc.rest), pc.sp, s.(attached := false),
                   s.dst.value, st.socks[s.dst.value].(back := None));
    }
  }

  lemma SwitchStateStep(st: State, t: Tid)
    requires Safe(st) && CanSwitchState(st, t)
    ensures Safe(DoSwitchState(st, t))
  {
    hide Moves, ThreadsOk, SplicesOk, SocketsOk, QueuesOk, RestOk;
    PcAt(st, t);
    var pc := st.thr[t];
    SpAt(st, pc.sp);
    var s := st.sps[pc.sp];
    if s.state == Queued || s.state == Running { ClosingStep(st, t); } else { ClosedStep(st, t); }
  }

  lemma ClosingStep(st: State, t: Tid)
    requires Safe(st) && CanSwitchState(st, t) && st.sps[st.thr[t].sp].state in {Queued, Running}
    ensures Safe(NextSp(st, t, UnspWait(st.thr[t].sp, st.thr[t].rest), st.thr[t].sp,
                        st.sps[st.thr[t].sp].(state := Closing)))
  {
    hide Moves, ThreadsOk, SplicesOk, SocketsOk, QueuesOk, RestOk;
    PcAt(st, t);
    var pc := st.thr[t];
    SpAt(st, pc.sp);
    var s := st.sps[pc.sp];
    RestAfter(st, t, pc.rest, pc.sp, s.(state := Closing),
              NextSp(st, t, UnspWait(pc.sp, pc.rest), pc.sp, s.(state := Closing)));
    NextSpSafe(st, t, UnspWait(pc.sp, pc.rest), pc.sp, s.(state := Closing));
  }

  lemma ClosedStep(st: State, t: Tid)
    requires Safe(st) && CanSwitchState(st, t) && st.sps[st.thr[t].sp].state !in {Queued, Running}
    ensures st.sps[st.thr[t].sp].state in {Init, Idle, Exception}
    ensures Safe(NextSp(st, t, UnspDropSrc(st.thr[t].sp, st.thr[t].rest), st.thr[t].sp,
                        st.sps[st.thr[t].sp].(state := Closed)))
  {
    hide Moves, ThreadsOk, SplicesOk, SocketsOk, QueuesOk, RestOk;
    PcAt(st, t);
    var pc := st.thr[t];
    SpAt(st, pc.sp);
    var s := st.sps[pc.sp];
    RestAfter(st, t, pc.rest, pc.sp, s.(state := Closed),
              NextSp(st, t, UnspDropSrc(pc.sp, pc.rest), pc.sp, s.(state := Closed)));
    NextSpSafe(st, t, UnspDropSrc(pc.sp, pc.rest), pc.sp, s.(state := Closed));
  }

  lemma WaitStep(st: State, t: Tid)
    requires Safe(st) && CanWait(st, t)
    ensures Safe(DoWait(st, t))
  {
    hide Moves, ThreadsOk, SplicesOk, SocketsOk, QueuesOk, RestOk;
    PcAt(st, t);
    var pc := st.thr[t];
    NextSafe(st, t, if st.sps[pc.sp].state == Closing then pc else UnspDropSrc(pc.sp, pc.rest));
  }

  lemma DropSrcStep(st: State, t: Tid)
    requires Safe(st) && CanDropSrc(st, t)
    ensures Safe(DoDropSrc(st, t))
  {
    hide Moves, ThreadsOk, SplicesOk, SocketsOk, QueuesOk, RestOk;
    PcAt(st, t);
    var pc := st.thr[t];
    SpAt(st, pc.sp);
    var s := st.sps[pc.sp];
    RestAfter(st, t, pc.rest, pc.sp, s.(srcDropped := s.srcDropped + 1),
              NextSp(st, t, UnspDropDst(pc.sp, pc.rest), pc.sp, s.(srcDropped := s.srcDropped + 1)));
    NextSpSafe(st, t, UnspDropDst(pc.sp, pc.rest), pc.sp, s.(srcDropped := s.srcDropped + 1));
  }

  lemma DropDstStep(st: State, t: Tid)
    requires Safe(st) && CanDropDst(st, t)
    ensures Safe(DoDropDst(st, t))
  {
    hide Moves, ThreadsOk, SplicesOk, SocketsOk, QueuesOk, RestOk;
    PcAt(st, t);
    var pc := st.thr[t];
    SpAt(st, pc.sp);
    var s := st.sps[pc.sp];
    RestAfter(st, t, pc.rest, pc.sp, if s.dst == None then s else s.(dstDropped := s.dstDropped + 1),
              NextSp(st, t, UnspFree(pc.sp, pc.rest), pc.sp,
                     if s.dst == None then s else s.(dstDropped := s.dstDropped + 1)));
    NextSpSafe(st, t, UnspFree(pc.sp, pc.rest), pc.sp,
               if s.dst == None then s else s.(dstDropped := s.dstDropped + 1));
  }

  lemma FreeStep(st: State, t: Tid)
    requires Safe(st) && CanFree(st, t)
    ensures Safe(DoFree(st, t))
  {
    hide Moves, ThreadsOk, SplicesOk, SocketsOk, QueuesOk, RestOk;
    PcAt(st, t);
    var pc := st.thr[t];
    SpAt(st, pc.sp);
    var s := st.sps[pc.sp];
    RestAfter(st, t, pc.rest, pc.sp, s.(closer := None, frees := s.frees + 1),
              NextSp(st, t, Work(pc.rest), pc.sp, s.(closer := None, frees := s.frees + 1)));
    NextSpSafe(st, t, Work(pc.rest), pc.sp, s.(closer := None, frees := s.frees + 1));
  }

  /** Only the byte counts of two sockets change. */
  lemma MoveStep(st: State, t: Tid, n: nat, m: nat, stop: bool)
    requires Safe(st) && CanMove(st, t, n, m)
    ensures Safe(DoMove(st, t, n, m, stop))
  {
    hide Moves, ThreadsOk, SplicesOk, SocketsOk, QueuesOk, RestOk;
    PcAt(st, t);
    var pc := st.thr[t];
    var s := st.sps[pc.sp];
    var st' := DoMove(st, t, n, m, stop);
    SpAt(st, pc.sp);
    SockAt(st, s.src);
    SockAt(st, s.dst.value);
    RestKept(st, st', t, pc.rest);
    MoveKeeps(pc, stop);
    MoveSocket(st, st', t, pc.sp, s.src);
    MoveSocket(st, st', t, pc.sp, s.dst.value);
    assert SpChangeOk(st, st', t, pc.sp, {s.src, s.dst.value}) by { MoveSplice(st, st', t, pc.sp, stop); }
    hide SpChangeOk, SockChangeOk, KeepsSp, KeepsSock, SpOk, SockOk;
    FramedSafe(st, st', t, Some(pc.sp), {s.src, s.dst.value});
  }

  lemma MoveKeeps(pc: Pc, stop: bool)
    requires pc.Moving?
    ensures forall x: SpId :: KeepsSp(pc, Moved(pc.sp, pc.rest, stop), x)
    ensures forall so: SockId :: KeepsSock(pc, Moved(pc.sp, pc.rest, stop), so)
  {
  }

  ghost predicate SameButCounts(k: Socket, k': Socket) {
    k' == k.(avail := k'.avail, space := k'.space)
  }

  lemma MoveSocket(st: State, st': State, t: Tid, sp: SpId, so: SockId)
    requires so in st.socks && so in st'.socks && SockOk(st, so, st.socks[so])
    requires SameButCounts(st.socks[so], st'.socks[so])
    requires t in st.thr && st.thr[t].Moving? && st'.sps == st.sps
    requires exists stop :: st'.thr == st.thr[t := Moved(st.thr[t].sp, st.thr[t].rest, stop)]
    ensures SockChangeOk(st, st', t, Some(sp), so)
  {
  }

  lemma MoveSplice(st: State, st': State, t: Tid, sp: SpId, stop: bool)
    requires sp in st.sps && SpOk(st, sp, st.sps[sp]) && st'.sps == st.sps && st'.queues == st.queues
    requires t in st.thr && st.thr[t].Moving? && st.thr[t].sp == sp
    requires st'.thr == st.thr[t := Moved(sp, st.thr[t].rest, stop)]
    requires forall so :: so in st.socks ==> so in st'.socks && SameButCounts(st.socks[so], st'.socks[so])
    ensures SpChangeOk(st, st', t, sp, {})
  {
    hide CountsOk, PhaseOk;
  }

  lemma AllocStep(st: State, t: Tid, sp: SpId, src: SockId, dst: SockId, w: nat)
    requires Safe(st) && CanAlloc(st, t, sp, src, dst, w)
    ensures Safe(DoAlloc(st, t, sp, src, dst, w))
  {
    hide Moves, ThreadsOk, SplicesOk, SocketsOk, QueuesOk;
    var st' := DoAlloc(st, t, sp, src, dst, w);
    assert SpChangeOk(st, st', t, sp, {});
    assert PcOk(st', t, SetupSrc(sp));
    assert forall x: SpId :: KeepsSp(Work([]), SetupSrc(sp), x);
    hide SpChangeOk, KeepsSp, PcOk;
    FramedSafe(st, st', t, Some(sp), {});
  }

  // ---- The work queue ----

  lemma EnqueueStep(st: State, t: Tid)
    requires Safe(st) && CanEnqueue(st, t)
    ensures Safe(DoEnqueue(st, t))
  {
    hide Moves, ThreadsOk, SplicesOk, SocketsOk, QueuesOk, RestOk;
    PcAt(st, t);
    var pc := st.thr[t];
    SpAt(st, pc.sp);
    var s := st.sps[pc.sp];
    var st' := DoEnqueue(st, t);
    RestAfter(st, t, pc.rest, pc.sp, s.(ticket := OnQueue), st');
    EnqueueQueues(st, t);
    MovesOnKeeps(pc, Work(pc.rest), Some(pc.sp), None);
    assert SpChangeOk(st, st', t, pc.sp, {});
    hide SpChangeOk, KeepsSp, KeepsSock, SpOk, PcMain;
    assert Framed(st, st', t, Some(pc.sp), {});
    FramedThreads(st, st', t, Some(pc.sp), {});
    FramedSplices(st, st', t, Some(pc.sp), {});
    FramedSockets(st, st', t, Some(pc.sp), {});
  }

  /** The new entry is the only one for its splice. */
  lemma EnqueueQueues(st: State, t: Tid)
    requires Safe(st) && CanEnqueue(st, t)
    ensures QueuesOk(DoEnqueue(st, t))
  {
    hide Moves, ThreadsOk, SplicesOk, SocketsOk, RestOk;
    PcAt(st, t);
    var sp := st.thr[t].sp;
    var st' := DoEnqueue(st, t);
    forall w | w in st'.queues ensures QueueOk(st', w, st'.queues[w]) {
      var q, q' := st.queues[w], st'.queues[w];
      assert QueueOk(st, w, q);
      assert forall i :: 0 <= i < |q| ==> q[i] != sp by {
        assert forall i :: 0 <= i < |q| ==> Waiting(st, q[i], OnQueue);
      }
      forall i | 0 <= i < |q'| ensures Waiting(st', q'[i], OnQueue) && st'.sps[q'[i]].wq == w {
        if i < |q| { assert Waiting(st, q[i], OnQueue); }
      }
    }
  }

  lemma TakeQueueStep(st: State, t: Tid, w: nat)
    requires Safe(st) && CanTakeQueue(st, t, w)
    ensures Safe(DoTakeQueue(st, t, w))
  {
    hide Moves, ThreadsOk, SplicesOk, SocketsOk, QueuesOk;
    TakeThreads(st, t, w);
    TakeSplices(st, t, w);
    TakeSockets(st, t, w);
    TakeQueues(st, t, w);
  }

  lemma QueueAt(st: State, w: nat)
    requires Safe(st) && w in st.queues
    ensures QueueOk(st, w, st.queues[w])
  {
    hide QueueOk;
  }

  lemma TakeThreads(st: State, t: Tid, w: nat)
    requires Safe(st) && CanTakeQueue(st, t, w)
    ensures ThreadsOk(DoTakeQueue(st, t, w))
  {
    hide SplicesOk, SocketsOk, QueuesOk;
    var st' := DoTakeQueue(st, t, w);
    var q := st.queues[w];
    QueueAt(st, w);
    forall i | 0 <= i < |q| ensures Waiting(st', q[i], With(t)) {
      assert Waiting(st, q[i], OnQueue);
    }
    TakeTolerated(st, t, w);
    hide Tolerated, PcOk;
    forall u | u in st'.thr ensures PcOk(st', u, st'.thr[u]) {
      if u != t {
        assert PcOk(st, u, st.thr[u]);
        OtherThread(st, st', t, u, st.thr[u]);
      } else {
        WorkOk(st', t, q);
      }
    }
  }

  lemma WorkOk(st: State, t: Tid, q: seq<SpId>)
    requires RestOk(st, t, q)
    ensures PcOk(st, t, Work(q))
  {
  }

  lemma TakeTolerated(st: State, t: Tid, w: nat)
    requires Safe(st) && CanTakeQueue(st, t, w)
    ensures Tolerated(st, DoTakeQueue(st, t, w), t)
  {
    hide Moves, ThreadsOk, SplicesOk, SocketsOk, QueuesOk;
    QueueAt(st, w);
    var st' := DoTakeQueue(st, t, w);
    forall x | x in st.sps ensures x in st'.sps && SpCompat(t, st.sps[x], st'.sps[x]) {
      assert x in st.queues[w] ==> Waiting(st, x, OnQueue);
    }
  }

  lemma TakeSplices(st: State, t: Tid, w: nat)
    requires Safe(st) && CanTakeQueue(st, t, w)
    ensures SplicesOk(DoTakeQueue(st, t, w))
  {
    hide ThreadsOk, SocketsOk, QueuesOk;
    QueueAt(st, w);
    var st' := DoTakeQueue(st, t, w);
    forall x | x in st'.sps ensures SpOk(st', x, st'.sps[x]) {
      SpAt(st, x);
      assert x in st.queues[w] ==> Waiting(st, x, OnQueue) && st.sps[x].wq == w;
    }
  }

  lemma TakeSockets(st: State, t: Tid, w: nat)
    requires Safe(st) && CanTakeQueue(st, t, w)
    ensures SocketsOk(DoTakeQueue(st, t, w))
  {
    hide Moves, ThreadsOk, SplicesOk, QueuesOk;
    var st' := DoTakeQueue(st, t, w);
    forall so | so in st'.socks ensures SockOk(st', so, st'.socks[so]) {
      SockAt(st, so);
    }
  }

  lemma TakeQueues(st: State, t: Tid, w: nat)
    requires Safe(st) && CanTakeQueue(st, t, w)
    ensures QueuesOk(DoTakeQueue(st, t, w))
  {
    hide Moves, ThreadsOk, SplicesOk, SocketsOk;
    QueueAt(st, w);
    var st' := DoTakeQueue(st, t, w);
    forall v | v in st'.queues ensures QueueOk(st', v, st'.queues[v]) {
      if v != w {
        QueueAt(st, v);
        var q := st.queues[v];
        forall i | 0 <= i < |q| ensures Waiting(st', q[i], OnQueue) && st'.sps[q[i]].wq == v {
          assert Waiting(st, q[i], OnQueue) && st.sps[q[i]].wq == v;
        }
      }
    }
  }

  lemma HeadOfRest(st: State, t: Tid, rest: seq<SpId>)
    requires RestOk(st, t, rest) && rest != []
    ensures Waiting(st, rest[0], With(t)) && RestOk(st, t, rest[1..]) && rest[0] !in rest[1..]
  {
    assert Waiting(st, rest[0], With(t));
    forall i | 0 <= i < |rest| - 1 ensures Waiting(st, rest[1..][i], With(t)) {
      assert Waiting(st, rest[i + 1], With(t));
    }
  }

  // ---- Every step, every run ----

  lemma BufferSafe(st: State, e: BufferStep)
    requires Safe(st) && BufferEnabled(st, e)
    ensures Safe(ApplyBuffer(st, e))
  {
    hide Safe, Moves,
         CanAppend, CanDrop, CanWake, CanLockToDispatch, CanDispatch, CanEnqueue,
         DoAppend, DoDrop, DoWake, DoLockToDispatch, DoDispatch, DoEnqueue;
    match e
    case Append(t, so, n) => AppendStep(st, t, so, n);
    case Drop(t, so, n) => DropStep(st, t, so, n);
    case Wake(t) => WakeStep(st, t);
    case LockToDispatch(t) => LockToDispatchStep(st, t);
    case Dispatch(t) => DispatchStep(st, t);
    case Enqueue(t) => EnqueueStep(st, t);
  }

  lemma TransferSafe(st: State, e: XferStep)
    requires Safe(st) && TransferEnabled(st, e)
    ensures Safe(ApplyTransfer(st, e))
  {
    hide Safe, Moves,
         CanTakeQueue, CanLockNext, CanBeginXfer, CanMove, CanRelock, CanDecide,
         CanCheckSpace, CanSetIdle,
         DoTakeQueue, DoLockNext, DoBeginXfer, DoMove, DoRelock, DoDecide,
         DoCheckSpace, DoSetIdle;
    match e
    case TakeQueue(t, w) => TakeQueueStep(st, t, w);
    case LockNext(t) => LockNextStep(st, t);
    case BeginXfer(t) => BeginXferStep(st, t);
    case Move(t, n, m, stop) => MoveStep(st, t, n, m, stop);
    case Relock(t) => RelockStep(st, t);
    case Decide(t, full) => DecideStep(st, t, full);
    case CheckSpace(t) => CheckSpaceStep(st, t);
    case SetIdle(t) => SetIdleStep(st, t);
  }

  lemma SetupSafe(st: State, e: SetupStep)
    requires Safe(st) && SetupEnabled(st, e)
    ensures Safe(ApplySetup(st, e))
  {
    hide Safe, Moves,
         CanAlloc, CanPublishSrc, CanPublishDst, CanFailSetup, CanFirstXfer,
         DoAlloc, DoPublishSrc, DoPublishDst, DoFailSetup, DoFirstXfer;
    match e
    case Alloc(t, sp, src, dst, w) => AllocStep(st, t, sp, src, dst, w);
    case PublishSrc(t, refuse) => PublishSrcStep(st, t, refuse);
    case PublishDst(t, refuse) => PublishDstStep(st, t, refuse);
    case FailSetup(t) => FailSetupStep(st, t);
    case FirstXfer(t) => FirstXferStep(st, t);
  }

  lemma CloseSafe(st: State, e: CloseStep)
    requires Safe(st) && CloseEnabled(st, e)
    ensures Safe(ApplyClose(st, e))
  {
    hide Safe, Moves,
         CanCallUnsplice, CanHide, CanDetachDst, CanSwitchState, CanWait, CanDropSrc,
         CanDropDst, CanFree,
         DoCallUnsplice, DoHide, DoDetachDst, DoSwitchState, DoWait, DoDropSrc,
         DoDropDst, DoFree;
    match e
    case CallUnsplice(t, so) => CallUnspliceStep(st, t, so);
    case Hide(t) => HideStep(st, t);
    case DetachDst(t) => DetachDstStep(st, t);
    case SwitchState(t) => SwitchStateStep(st, t);
    case Wait(t) => WaitStep(st, t);
    case DropSrc(t) => DropSrcStep(st, t);
    case DropDst(t) => DropDstStep(st, t);
    case Free(t) => FreeStep(st, t);
  }

  lemma SafeStep(st: State, e: Step)
    requires Safe(st) && Enabled(st, e)
    ensures Safe(Apply(st, e))
  {
    hide Safe, Moves, BufferEnabled, TransferEnabled, SetupEnabled, CloseEnabled,
         ApplyBuffer, ApplyTransfer, ApplySetup, ApplyClose;
    match e
    case Buffer(b) => BufferSafe(st, b);
    case Transfer(x) => TransferSafe(st, x);
    case Setup(u) => SetupSafe(st, u);
    case Close(c) => CloseSafe(st, c);
  }

  lemma SafeAtStart(st: State)
    requires Initial(st)
    ensures Safe(st)
  {
  }

  /** The invariant holds in every state of every run. */
  lemma {:induction false} SafeRun(run: seq<State>, steps: seq<Step>, i: nat)
    requires IsRun(run, steps) && i < |run|
    ensures Safe(run[i])
  {
    hide Safe, Enabled, Apply, Initial;
    if i == 0 {
      SafeAtStart(run[0]);
    } else {
      SafeRun(run, steps, i - 1);
      SafeStep(run[i - 1], steps[i - 1]);
    }
  }
}
