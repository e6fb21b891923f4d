/** What a step of one thread leaves alone: if it changes one splice and a few sockets in
    ways their other users tolerate, the invariant carries over to everything else. */
module SpliceFrame {
  import opened Basics
  import opened SpliceMachine
  import opened SpliceInvariant

  ghost predicate TicketKept(s: Splice, s': Splice) {
    && s'.ticket == s.ticket && s'.wq == s.wq
    && (s'.state == s.state || (s.state in {Queued, Running} && s'.state == Closing))
  }

  /** What threads other than t0 rely on about a splice. */
  ghost predicate SpCompat(t0: Tid, s: Splice, s': Splice) {
    && (s'.frees != s.frees ==>
          && s.ticket == NoTicket && (s.mtx == None || s.mtx == Some(t0))
          && (s.setup == None || s.setup == Some(t0)) && (s.closer == None || s.closer == Some(t0)))
    && (s.ticket.With? && s.ticket != With(t0) ==> TicketKept(s, s'))
    && (s.mtx.Some? && s.mtx != Some(t0) ==> s'.mtx == s.mtx && s'.state == s.state)
    && (s.setup.Some? && s.setup != Some(t0) ==>
          && s'.setup == s.setup && s'.state == s.state && s'.srcTaken == s.srcTaken
          && s'.attached == s.attached && s'.dst == s.dst)
    && (s.closer.Some? && s.closer != Some(t0) ==>
          && s'.closer == s.closer && s'.attached == s.attached && s'.dst == s.dst
          && s'.srcDropped == s.srcDropped && s'.dstDropped == s.dstDropped && s'.dstTaken == s.dstTaken
          && (s.state !in {Init, Closing, Closed} ==> s'.state !in {Init, Closing, Closed})
          && (s.state == Closing ==> s'.state in {Closing, Closed})
          && (s.state == Closed ==> s'.state == Closed))
  }

  ghost predicate SockCompat(t0: Tid, k: Socket, k': Socket) {
    && (k.rcvLock.Some? && k.rcvLock != Some(t0) ==> k'.rcvLock == k.rcvLock && k'.splice == k.splice)
    && (k.sndLock.Some? && k.sndLock != Some(t0) ==> k'.sndLock == k.sndLock && k'.back == k.back)
  }

  /** The thread keeps what it had of every splice but sp0. */
  ghost predicate KeepsSp(pc: Pc, pc': Pc, x: SpId) {
    && (Carries(pc, x) ==> Carries(pc', x))
    && (HoldsMutex(pc, x) ==> HoldsMutex(pc', x))
    && (SettingUp(pc, x) ==> SettingUp(pc', x))
    && (TakingDown(pc, x) ==> TakingDown(pc', x))
  }

  ghost predicate KeepsSock(pc: Pc, pc': Pc, so: SockId) {
    (HoldsRcv(pc, so) ==> HoldsRcv(pc', so)) && (HoldsSnd(pc, so) ==> HoldsSnd(pc', so))
  }

  ghost predicate OneThread(st: State, st': State, t0: Tid) {
    t0 in st.thr && t0 in st'.thr && st'.thr == st.thr[t0 := st'.thr[t0]]
  }

  ghost predicate SplicesBut(st: State, st': State, sp0: Option<SpId>) {
    && (forall x :: x in st.sps ==> x in st'.sps)
    && (forall x :: x in st'.sps && Some(x) != sp0 ==> x in st.sps && st'.sps[x] == st.sps[x])
  }

  ghost predicate SocketsBut(st: State, st': State, sos: set<SockId>) {
    && (forall so :: so in st.socks <==> so in st'.socks)
    && (forall so :: so in st.socks && so !in sos ==> st'.socks[so] == st.socks[so])
  }

  /** The source points at the splice. */
  ghost predicate Published(s: Splice) { s.frees == 0 && s.srcTaken == 1 && s.closer == None }

  ghost predicate SpChangeOk(st: State, st': State, t0: Tid, sp: SpId, sos: set<SockId>) {
    && sp in st'.sps && SpOk(st', sp, st'.sps[sp])
    && (sp in st.sps ==>
          var s, s' := st.sps[sp], st'.sps[sp];
          && SpCompat(t0, s, s') && (s.ticket == OnQueue ==> TicketKept(s, s'))
          && (s.src !in sos && Published(s) ==> s'.src == s.src && Published(s'))
          && (s.dst.Some? && s.dst.value !in sos && s.attached ==>
                s'.frees == s.frees && s'.dst == s.dst && s'.attached == s.attached))
  }

  ghost predicate SockChangeOk(st: State, st': State, t0: Tid, sp0: Option<SpId>, so: SockId) {
    && so in st.socks && so in st'.socks && SockOk(st', so, st'.socks[so])
    && var k, k' := st.socks[so], st'.socks[so];
       && SockCompat(t0, k, k')
       && (k.splice.Some? && k.splice != sp0 ==> k'.splice == k.splice)
       && (k.back.Some? && k.back != sp0 ==> k'.back == k.back)
  }

  /** A step of t0 that changed at most splice sp0 and the sockets sos. */
  ghost predicate Framed(st: State, st': State, t0: Tid, sp0: Option<SpId>, sos: set<SockId>) {
    && OneThread(st, st', t0) && SplicesBut(st, st', sp0) && SocketsBut(st, st', sos)
    && (forall w :: w in st.queues ==> w in st'.queues && st.queues[w] <= st'.queues[w])
    && PcOk(st', t0, st'.thr[t0])
    && (sp0.Some? ==> SpChangeOk(st, st', t0, sp0.value, sos))
    && (forall so :: so in sos ==> SockChangeOk(st, st', t0, sp0, so))
    && (forall x: SpId :: Some(x) != sp0 ==> KeepsSp(st.thr[t0], st'.thr[t0], x))
    && (forall so: SockId :: so !in sos ==> KeepsSock(st.thr[t0], st'.thr[t0], so))
  }

  // ---- Threads ----

  ghost predicate Tolerated(st: State, st': State, t0: Tid) {
    && (forall x :: x in st.sps ==> x in st'.sps && SpCompat(t0, st.sps[x], st'.sps[x]))
    && (forall so :: so in st.socks ==> so in st'.socks && SockCompat(t0, st.socks[so], st'.socks[so]))
  }

  lemma OtherRest(st: State, st': State, t0: Tid, t: Tid, rest: seq<SpId>)
    requires Tolerated(st, st', t0) && t != t0 && RestOk(st, t, rest)
    ensures RestOk(st', t, rest)
  {
    forall i | 0 <= i < |rest| ensures Waiting(st', rest[i], With(t)) {
      assert Waiting(st, rest[i], With(t));
      assert SpCompat(t0, st.sps[rest[i]], st'.sps[rest[i]]);
    }
  }

  lemma OtherXfer(st: State, st': State, t0: Tid, t: Tid, sp: SpId, rest: seq<SpId>,
                  s1: SpState, s2: SpState, locked: bool)
    requires Tolerated(st, st', t0) && t != t0 && InXfer(st, t, sp, rest, s1, s2, locked)
    requires s2 == Closing || (locked && s2 == s1)
    ensures InXfer(st', t, sp, rest, s1, s2, locked)
  {
    assert SpCompat(t0, st.sps[sp], st'.sps[sp]);
  }

  lemma OtherSetup(st: State, st': State, t0: Tid, t: Tid, sp: SpId, taken: nat, attached: bool)
    requires Tolerated(st, st', t0) && t != t0 && InSetup(st, t, sp, taken, attached)
    ensures InSetup(st', t, sp, taken, attached)
  {
    assert SpCompat(t0, st.sps[sp], st'.sps[sp]);
  }

  lemma OtherClose(st: State, st': State, t0: Tid, t: Tid, sp: SpId, detached: bool, srcOut: nat, dstOut: nat)
    requires Tolerated(st, st', t0) && t != t0 && InClose(st, t, sp, detached, srcOut, dstOut)
    ensures InClose(st', t, sp, detached, srcOut, dstOut)
    ensures st'.sps[sp].dstTaken == st.sps[sp].dstTaken
    ensures st.sps[sp].state !in {Init, Closing, Closed} ==> st'.sps[sp].state !in {Init, Closing, Closed}
    ensures st.sps[sp].state == Closing ==> st'.sps[sp].state in {Closing, Closed}
    ensures st.sps[sp].state == Closed ==> st'.sps[sp].state == Closed
  {
    assert SpCompat(t0, st.sps[sp], st'.sps[sp]);
  }

  lemma OtherHolder(st: State, st': State, t0: Tid, t: Tid, sp: SpId)
    requires Tolerated(st, st', t0) && t != t0 && Live(st, sp) && st.sps[sp].mtx == Some(t)
    ensures Live(st', sp) && st'.sps[sp].mtx == Some(t)
  {
    assert SpCompat(t0, st.sps[sp], st'.sps[sp]);
  }

  lemma OtherLocker(st: State, st': State, t0: Tid, t: Tid, so: SockId)
    requires Tolerated(st, st', t0) && t != t0 && so in st.socks
    ensures so in st'.socks
    ensures st.socks[so].rcvLock == Some(t) ==>
              st'.socks[so].rcvLock == Some(t) && st'.socks[so].splice == st.socks[so].splice
    ensures st.socks[so].sndLock == Some(t) ==>
              st'.socks[so].sndLock == Some(t) && st'.socks[so].back == st.socks[so].back
  {
    assert SockCompat(t0, st.socks[so], st'.socks[so]);
  }

  lemma OtherThread(st: State, st': State, t0: Tid, t: Tid, pc: Pc)
    requires Tolerated(st, st', t0) && t != t0 && PcOk(st, t, pc)
    ensures PcOk(st', t, pc)
  {
    hide Tolerated, RestOk, PcMain;
    OtherRest(st, st', t0, t, RestOf(pc));
    if InTransfer(pc) { OtherTransfer(st, st', t0, t, pc); }
    else if InTakeDown(pc) { OtherTakeDown(st, st', t0, t, pc); }
    else { OtherRole(st, st', t0, t, pc); }
  }

  ghost predicate InTransfer(pc: Pc) {
    pc.AsyncDue? || pc.Xfer? || pc.Moving? || pc.Moved? || pc.Deciding? || pc.ReadSpace? || pc.GoIdle?
  }

  ghost predicate InTakeDown(pc: Pc) {
    pc.UnspDst? || pc.UnspState? || pc.UnspWait? || pc.UnspDropSrc? || pc.UnspDropDst? || pc.UnspFree?
  }

  lemma OtherTransfer(st: State, st': State, t0: Tid, t: Tid, pc: Pc)
    requires Tolerated(st, st', t0) && t != t0 && PcMain(st, t, pc) && InTransfer(pc)
    ensures PcMain(st', t, pc)
  {
    hide Tolerated, InXfer, InSetup, InClose;
    match pc
    case AsyncDue(sp, r) => OtherXfer(st, st', t0, t, sp, r, Queued, Closing, false);
    case Xfer(sp, r) => OtherXfer(st, st', t0, t, sp, r, Queued, Closing, true);
    case Moving(sp, r) => OtherXfer(st, st', t0, t, sp, r, Running, Closing, false);
    case Moved(sp, r, _) => OtherXfer(st, st', t0, t, sp, r, Running, Closing, false);
    case Deciding(sp, r, _) => OtherXfer(st, st', t0, t, sp, r, Running, Closing, true);
    case ReadSpace(sp, r) => OtherXfer(st, st', t0, t, sp, r, Running, Running, true);
    case GoIdle(sp, r, _) => OtherXfer(st, st', t0, t, sp, r, Running, Running, true);
    case _ =>
  }

  lemma OtherTakeDown(st: State, st': State, t0: Tid, t: Tid, pc: Pc)
    requires Tolerated(st, st', t0) && t != t0 && PcMain(st, t, pc) && InTakeDown(pc)
    ensures PcMain(st', t, pc)
  {
    hide Tolerated, InXfer, InSetup;
    match pc
    case UnspDst(sp, _) => OtherClose(st, st', t0, t, sp, false, 0, 0);
    case UnspState(sp, _) => OtherClose(st, st', t0, t, sp, true, 0, 0);
    case UnspWait(sp, _) => OtherClose(st, st', t0, t, sp, true, 0, 0);
    case UnspDropSrc(sp, _) => OtherClose(st, st', t0, t, sp, true, 0, 0);
    case UnspDropDst(sp, _) => OtherClose(st, st', t0, t, sp, true, 1, 0);
    case UnspFree(sp, _) => OtherClose(st, st', t0, t, sp, true, 1, st.sps[sp].dstTaken);
    case _ =>
  }

  lemma OtherRole(st: State, st': State, t0: Tid, t: Tid, pc: Pc)
    requires Tolerated(st, st', t0) && t != t0 && PcMain(st, t, pc) && !InTransfer(pc) && !InTakeDown(pc)
    ensures PcMain(st', t, pc)
  {
    hide Tolerated, InXfer, InClose;
    match pc
    case Unsplice(so, _) => OtherLocker(st, st', t0, t, so);
    case Appended(so) => OtherLocker(st, st', t0, t, so);
    case PushGot(so, _) => OtherLocker(st, st', t0, t, so);
    case Dropped(so) => OtherLocker(st, st', t0, t, so);
    case PullGot(so, _) => OtherLocker(st, st', t0, t, so);
    case Dispatching(sp) => OtherHolder(st, st', t0, t, sp);
    case SetupSrc(sp) => OtherSetup(st, st', t0, t, sp, 0, false);
    case SetupDst(sp) => OtherSetup(st, st', t0, t, sp, 1, false);
    case SetupFail(sp) => OtherSetup(st, st', t0, t, sp, 1, false);
    case SetupHeld(sp) => OtherSetup(st, st', t0, t, sp, 1, true); OtherHolder(st, st', t0, t, sp);
    case _ =>
  }

  lemma IsTolerated(st: State, st': State, t0: Tid, sp0: Option<SpId>, sos: set<SockId>)
    requires Framed(st, st', t0, sp0, sos)
    ensures Tolerated(st, st', t0)
  {
    hide KeepsSp, KeepsSock, PcOk, SpOk, SockOk;
    forall x | x in st.sps ensures x in st'.sps && SpCompat(t0, st.sps[x], st'.sps[x]) {
      if Some(x) != sp0 { assert st'.sps[x] == st.sps[x]; }
    }
    forall so | so in st.socks ensures so in st'.socks && SockCompat(t0, st.socks[so], st'.socks[so]) {
      if so in sos { assert SockChangeOk(st, st', t0, sp0, so); }
    }
  }

  lemma FramedThreads(st: State, st': State, t0: Tid, sp0: Option<SpId>, sos: set<SockId>)
    requires ThreadsOk(st) && Framed(st, st', t0, sp0, sos)
    ensures ThreadsOk(st')
  {
    IsTolerated(st, st', t0, sp0, sos);
    hide Tolerated, PcOk, SplicesBut, SocketsBut, SpChangeOk, SockChangeOk, KeepsSp, KeepsSock;
    forall t | t in st'.thr ensures PcOk(st', t, st'.thr[t]) {
      if t != t0 {
        assert PcOk(st, t, st.thr[t]);
        OtherThread(st, st', t0, t, st.thr[t]);
      }
    }
  }

  // ---- Splices ----

  lemma OtherSplice(st: State, st': State, t0: Tid, sp0: Option<SpId>, sos: set<SockId>, x: SpId)
    requires Framed(st, st', t0, sp0, sos)
    requires x in st.sps && Some(x) != sp0 && SpOk(st, x, st.sps[x])
    ensures SpOk(st', x, st'.sps[x])
  {
    hide PcOk, SpChangeOk, SockOk, CountsOk, PhaseOk, Carries, HoldsMutex, SettingUp, TakingDown;
    var s := st.sps[x];
    assert st'.sps[x] == s;
    assert KeepsSp(st.thr[t0], st'.thr[t0], x);
    assert s.src in sos ==> SockChangeOk(st, st', t0, sp0, s.src);
    assert s.dst.Some? && s.dst.value in sos ==> SockChangeOk(st, st', t0, sp0, s.dst.value);
  }

  lemma FramedSplices(st: State, st': State, t0: Tid, sp0: Option<SpId>, sos: set<SockId>)
    requires SplicesOk(st) && Framed(st, st', t0, sp0, sos)
    ensures SplicesOk(st')
  {
    hide PcOk, SpOk, SocketsBut, SockChangeOk, KeepsSp, KeepsSock;
    forall x | x in st'.sps ensures SpOk(st', x, st'.sps[x]) {
      if Some(x) != sp0 {
        assert SpOk(st, x, st.sps[x]);
        OtherSplice(st, st', t0, sp0, sos, x);
      } else {
        assert SpChangeOk(st, st', t0, x, sos);
      }
    }
  }

  // ---- Sockets ----

  lemma OtherSocket(st: State, st': State, t0: Tid, sp0: Option<SpId>, sos: set<SockId>, so: SockId)
    requires Framed(st, st', t0, sp0, sos)
    requires so in st.socks && so !in sos && SockOk(st, so, st.socks[so])
    ensures SockOk(st', so, st'.socks[so])
  {
    hide PcOk, SpOk, SpCompat, SockChangeOk, KeepsSp, HoldsRcv, HoldsSnd;
    var k := st.socks[so];
    assert st'.socks[so] == k;
    assert KeepsSock(st.thr[t0], st'.thr[t0], so);
    assert k.splice.Some? && k.splice != sp0 ==> st'.sps[k.splice.value] == st.sps[k.splice.value];
    assert k.back.Some? && k.back != sp0 ==> st'.sps[k.back.value] == st.sps[k.back.value];
  }

  lemma FramedSockets(st: State, st': State, t0: Tid, sp0: Option<SpId>, sos: set<SockId>)
    requires SocketsOk(st) && Framed(st, st', t0, sp0, sos)
    ensures SocketsOk(st')
  {
    hide PcOk, SpOk, SplicesBut, SpChangeOk, SockOk, KeepsSp, KeepsSock;
    forall so | so in st'.socks ensures SockOk(st', so, st'.socks[so]) {
      if so in sos {
        assert SockChangeOk(st, st', t0, sp0, so);
      } else {
        assert SockOk(st, so, st.socks[so]);
        OtherSocket(st, st', t0, sp0, sos, so);
      }
    }
  }

  // ---- Queues ----

  lemma FramedQueues(st: State, st': State, t0: Tid, sp0: Option<SpId>, sos: set<SockId>)
    requires QueuesOk(st) && Framed(st, st', t0, sp0, sos) && st'.queues == st.queues
    ensures QueuesOk(st')
  {
    hide PcOk, SockChangeOk, KeepsSp, KeepsSock, SpOk, Distinct;
    forall w | w in st'.queues ensures QueueOk(st', w, st'.queues[w]) {
      var q := st.queues[w];
      assert QueueOk(st, w, q);
      forall i | 0 <= i < |q| ensures Waiting(st', q[i], OnQueue) && st'.sps[q[i]].wq == w {
        assert Waiting(st, q[i], OnQueue) && st.sps[q[i]].wq == w;
        assert Some(q[i]) == sp0 ==> SpChangeOk(st, st', t0, q[i], sos);
      }
    }
  }

  /** A framed step keeps the invariant. */
  lemma FramedSafe(st: State, st': State, t0: Tid, sp0: Option<SpId>, sos: set<SockId>)
    requires Safe(st) && Framed(st, st', t0, sp0, sos) && !st'.panic && st'.queues == st.queues
    ensures Safe(st')
  {
    hide Framed, ThreadsOk, SplicesOk, SocketsOk, QueuesOk;
    FramedThreads(st, st', t0, sp0, sos);
    FramedSplices(st, st', t0, sp0, sos);
    FramedSockets(st, st', t0, sp0, sos);
    FramedQueues(st, st', t0, sp0, sos);
  }

  // ---- The shape of almost every step ----

  ghost function MainOf(pc: Pc): Option<SpId> {
    match pc
    case Dispatching(x) => Some(x)
    case AsyncDue(x, _) => Some(x)
    case Xfer(x, _) => Some(x)
    case Moving(x, _) => Some(x)
    case Moved(x, _, _) => Some(x)
    case Deciding(x, _, _) => Some(x)
    case ReadSpace(x, _) => Some(x)
    case GoIdle(x, _, _) => Some(x)
    case SetupSrc(x) => Some(x)
    case SetupDst(x) => Some(x)
    case SetupFail(x) => Some(x)
    case SetupHeld(x) => Some(x)
    case UnspDst(x, _) => Some(x)
    case UnspState(x, _) => Some(x)
    case UnspWait(x, _) => Some(x)
    case UnspDropSrc(x, _) => Some(x)
    case UnspDropDst(x, _) => Some(x)
    case UnspFree(x, _) => Some(x)
    case _ => None
  }

  ghost function LockedSock(pc: Pc): Option<SockId> {
    match pc
    case Appended(so) => Some(so)
    case PushGot(so, _) => Some(so)
    case Dropped(so) => Some(so)
    case PullGot(so, _) => Some(so)
    case _ => None
  }

  ghost predicate MovesOn(pc: Pc, pc': Pc, sp: Option<SpId>, so: Option<SockId>) {
    && (MainOf(pc).Some? ==> MainOf(pc) == sp)
    && (LockedSock(pc).Some? ==> LockedSock(pc) == so)
    && (RestOf(pc) == RestOf(pc') || (sp.Some? && RestOf(pc) == [sp.value] + RestOf(pc')))
  }

  lemma MovesOnKeeps(pc: Pc, pc': Pc, sp: Option<SpId>, so: Option<SockId>)
    requires MovesOn(pc, pc', sp, so)
    ensures forall x: SpId :: Some(x) != sp ==> KeepsSp(pc, pc', x)
    ensures forall o: SockId :: Some(o) != so ==> KeepsSock(pc, pc', o)
  {
    hide RestOf, MainOf, CarriesMain, HoldsMutex, SettingUp, TakingDown, KeepsSp, KeepsSock;
    forall x: SpId | Some(x) != sp ensures KeepsSp(pc, pc', x) { MovesOnSp(pc, pc', sp, so, x); }
    forall o: SockId | Some(o) != so ensures KeepsSock(pc, pc', o) { MovesOnSock(pc, pc', sp, so, o); }
  }

  lemma MovesOnSp(pc: Pc, pc': Pc, sp: Option<SpId>, so: Option<SockId>, x: SpId)
    requires MovesOn(pc, pc', sp, so) && Some(x) != sp
    ensures KeepsSp(pc, pc', x)
  {
    hide RestOf, MainOf, CarriesMain, HoldsMutex, SettingUp, TakingDown;
    MainOnly(pc, x);
    assert x in RestOf(pc) ==> x in RestOf(pc');
  }

  lemma MovesOnSock(pc: Pc, pc': Pc, sp: Option<SpId>, so: Option<SockId>, o: SockId)
    requires MovesOn(pc, pc', sp, so) && Some(o) != so
    ensures KeepsSock(pc, pc', o)
  {
    hide RestOf, MainOf;
  }

  lemma MainOnly(pc: Pc, x: SpId)
    ensures CarriesMain(pc, x) || HoldsMutex(pc, x) || SettingUp(pc, x) || TakingDown(pc, x) ==> MainOf(pc) == Some(x)
  {
    hide RestOf;
  }

  /** Owners named by the new record: the stepping thread if its new program point says so,
      otherwise whoever it was before. */
  ghost predicate OwnersLocal(t: Tid, pc: Pc, sp: SpId, s: Splice, s': Splice) {
    && (s'.ticket.With? ==> if s'.ticket.t == t then Carries(pc, sp) else s'.ticket == s.ticket)
    && (s'.ticket == OnQueue ==> s.ticket == OnQueue)
    && (s'.mtx.Some? ==> if s'.mtx.value == t then HoldsMutex(pc, sp) else s'.mtx == s.mtx)
    && (s'.setup.Some? ==> if s'.setup.value == t then SettingUp(pc, sp) else s'.setup == s.setup)
    && (s'.closer.Some? ==> if s'.closer.value == t then TakingDown(pc, sp) else s'.closer == s.closer)
  }

  ghost predicate PointersLocal(s: Splice, s': Splice) {
    && s'.src == s.src && s'.wq == s.wq && (s'.dst.Some? ==> s'.dst == s.dst)
    && (Published(s) <==> Published(s'))
    && s'.attached == s.attached && (s.attached ==> s'.dst == s.dst && s'.frees == s.frees)
  }

  lemma OwnersFromLocal(st: State, st': State, t: Tid, pc: Pc, sp: SpId, s': Splice)
    requires t in st.thr && st'.thr == st.thr[t := pc] && st'.queues == st.queues
    requires sp in st.sps && OwnersOk(st, sp, st.sps[sp]) && OwnersLocal(t, pc, sp, st.sps[sp], s')
    requires s'.wq == st.sps[sp].wq
    ensures OwnersOk(st', sp, s')
  {
    hide Carries, HoldsMutex, SettingUp, TakingDown;
  }

  /** A step that changes one splice and no socket. */
  lemma NextSpSafe(st: State, t: Tid, pc: Pc, sp: SpId, s': Splice)
    requires Safe(st) && t in st.thr && sp in st.sps && MovesOn(st.thr[t], pc, Some(sp), None)
    requires PcOk(NextSp(st, t, pc, sp, s'), t, pc)
    requires CountsOk(s') && PhaseOk(s') && OwnersLocal(t, pc, sp, st.sps[sp], s')
    requires SpCompat(t, st.sps[sp], s') && PointersLocal(st.sps[sp], s')
    requires st.sps[sp].ticket == OnQueue ==> TicketKept(st.sps[sp], s')
    ensures Safe(NextSp(st, t, pc, sp, s'))
  {
    var st' := NextSp(st, t, pc, sp, s');
    hide ThreadsOk, SplicesOk, SocketsOk, QueuesOk, PcOk, MovesOn, KeepsSp, KeepsSock,
         CountsOk, PhaseOk, OwnersOk, OwnersLocal, SpCompat;
    SpAt(st, sp);
    OwnersFromLocal(st, st', t, pc, sp, s');
    MovesOnKeeps(st.thr[t], pc, Some(sp), None);
    assert SpChangeOk(st, st', t, sp, {});
    FramedSafe(st, st', t, Some(sp), {});
  }

  /** A step that changes one socket and no splice. */
  lemma NextSockSafe(st: State, t: Tid, pc: Pc, so: SockId, k': Socket)
    requires Safe(st) && t in st.thr && so in st.socks && MovesOn(st.thr[t], pc, None, Some(so))
    requires RestOk(st, t, RestOf(pc)) && PcMain(NextSock(st, t, pc, so, k'), t, pc)
    requires SockChangeOk(st, NextSock(st, t, pc, so, k'), t, None, so)
    ensures Safe(NextSock(st, t, pc, so, k'))
  {
    var st' := NextSock(st, t, pc, so, k');
    hide ThreadsOk, SplicesOk, SocketsOk, QueuesOk, PcMain, MovesOn, KeepsSp, KeepsSock, RestOk, RestOf, SockChangeOk;
    RestKept(st, st', t, RestOf(pc));
    MovesOnKeeps(st.thr[t], pc, None, Some(so));
    FramedSafe(st, st', t, None, {so});
  }

  /** A step that changes one splice and one socket. */
  lemma NextBothSafe(st: State, t: Tid, pc: Pc, sp: SpId, s': Splice, so: SockId, k': Socket)
    requires Safe(st) && t in st.thr && sp in st.sps && so in st.socks
    requires MovesOn(st.thr[t], pc, Some(sp), Some(so))
    requires PcOk(NextBoth(st, t, pc, sp, s', so, k'), t, pc)
    requires CountsOk(s') && PhaseOk(s') && OwnersLocal(t, pc, sp, st.sps[sp], s') && s'.wq == st.sps[sp].wq
    requires PointersOk(NextBoth(st, t, pc, sp, s', so, k'), sp, s')
    requires SpCompat(t, st.sps[sp], s') && (st.sps[sp].ticket == OnQueue ==> TicketKept(st.sps[sp], s'))
    requires var s := st.sps[sp];
             && (s.src != so && Published(s) ==> s'.src == s.src && Published(s'))
             && (s.dst.Some? && s.dst.value != so && s.attached ==>
                   s'.frees == s.frees && s'.dst == s.dst && s'.attached == s.attached)
    requires SockChangeOk(st, NextBoth(st, t, pc, sp, s', so, k'), t, Some(sp), so)
    ensures Safe(NextBoth(st, t, pc, sp, s', so, k'))
  {
    var st' := NextBoth(st, t, pc, sp, s', so, k');
    hide ThreadsOk, SplicesOk, SocketsOk, QueuesOk, PcOk, MovesOn, KeepsSp, KeepsSock,
         CountsOk, PhaseOk, OwnersOk, OwnersLocal, SpCompat, SockChangeOk, PointersOk;
    SpAt(st, sp);
    OwnersFromLocal(st, st', t, pc, sp, s');
    MovesOnKeeps(st.thr[t], pc, Some(sp), Some(so));
    assert SpChangeOk(st, st', t, sp, {so});
    FramedSafe(st, st', t, Some(sp), {so});
  }

  /** A step that changes neither. */
  lemma NextSafe(st: State, t: Tid, pc: Pc)
    requires Safe(st) && t in st.thr && RestOf(st.thr[t]) == RestOf(pc)
    requires forall x: SpId :: KeepsSp(st.thr[t], pc, x)
    requires forall so: SockId :: KeepsSock(st.thr[t], pc, so)
    requires PcMain(Next(st, t, pc), t, pc)
    ensures Safe(Next(st, t, pc))
  {
    var st' := Next(st, t, pc);
    hide ThreadsOk, SplicesOk, SocketsOk, QueuesOk, PcMain, KeepsSp, KeepsSock, RestOk, RestOf;
    PcAt(st, t);
    RestKept(st, st', t, RestOf(pc));
    FramedSafe(st, st', t, None, {});
  }

  // ---- Reading the invariant off at one place ----

  lemma PcAt(st: State, t: Tid)
    requires Safe(st) && t in st.thr
    ensures PcOk(st, t, st.thr[t])
  {
    hide PcOk;
  }

  lemma SpAt(st: State, sp: SpId)
    requires Safe(st) && sp in st.sps
    ensures SpOk(st, sp, st.sps[sp])
  {
    hide SpOk;
  }

  lemma SockAt(st: State, so: SockId)
    requires Safe(st) && so in st.socks
    ensures SockOk(st, so, st.socks[so])
  {
    hide SockOk;
  }

  lemma RestKept(st: State, st': State, t: Tid, rest: seq<SpId>)
    requires RestOk(st, t, rest)
    requires forall x :: x in rest && x in st.sps ==> x in st'.sps && st'.sps[x] == st.sps[x]
    ensures RestOk(st', t, rest)
  {
    forall i | 0 <= i < |rest| ensures Waiting(st', rest[i], With(t)) {
      assert Waiting(st, rest[i], With(t));
    }
  }

  /** The private list survives a change of one splice that it does not hold, or that
      leaves the ticket where it is and the splice waiting. */
  lemma RestAfter(st: State, t: Tid, rest: seq<SpId>, sp: SpId, s': Splice, st': State)
    requires RestOk(st, t, rest) && sp in st.sps && st'.sps == st.sps[sp := s']
    requires sp in rest && st.sps[sp].ticket == With(t) && st.sps[sp].state in {Queued, Closing} ==>
               s'.frees == 0 && s'.ticket == With(t) && s'.state in {Queued, Closing}
    ensures RestOk(st', t, rest)
  {
    forall i | 0 <= i < |rest| ensures Waiting(st', rest[i], With(t)) {
      assert Waiting(st, rest[i], With(t));
    }
  }
}
