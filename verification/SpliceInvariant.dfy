/** What every interleaving of the splice steps keeps. */
module SpliceInvariant {
  import opened Basics
  import opened SpliceMachine

  // ---- What a program point says about the thread ----

  /** The splice whose ticket the program point itself carries. */
  ghost predicate CarriesMain(pc: Pc, sp: SpId) {
    match pc
    case AsyncDue(x, _) => x == sp
    case Xfer(x, _) => x == sp
    case Moving(x, _) => x == sp
    case Moved(x, _, _) => x == sp
    case Deciding(x, _, _) => x == sp
    case ReadSpace(x, _) => x == sp
    case GoIdle(x, _, _) => x == sp
    case _ => false
  }

  ghost function RestOf(pc: Pc): seq<SpId> {
    match pc
    case Work(r) => r
    case AsyncDue(_, r) => r
    case Xfer(_, r) => r
    case Moving(_, r) => r
    case Moved(_, r, _) => r
    case Deciding(_, r, _) => r
    case ReadSpace(_, r) => r
    case GoIdle(_, r, _) => r
    case Unsplice(_, r) => r
    case UnspDst(_, r) => r
    case UnspState(_, r) => r
    case UnspWait(_, r) => r
    case UnspDropSrc(_, r) => r
    case UnspDropDst(_, r) => r
    case UnspFree(_, r) => r
    case _ => []
  }

  ghost predicate Carries(pc: Pc, sp: SpId) {
    CarriesMain(pc, sp) || sp in RestOf(pc)
  }

  ghost predicate HoldsMutex(pc: Pc, sp: SpId) {
    match pc
    case Dispatching(x) => x == sp
    case Xfer(x, _) => x == sp
    case Deciding(x, _, _) => x == sp
    case ReadSpace(x, _) => x == sp
    case GoIdle(x, _, _) => x == sp
    case SetupHeld(x) => x == sp
    case _ => false
  }

  ghost predicate SettingUp(pc: Pc, sp: SpId) {
    match pc
    case SetupSrc(x) => x == sp
    case SetupDst(x) => x == sp
    case SetupFail(x) => x == sp
    case SetupHeld(x) => x == sp
    case _ => false
  }

  ghost predicate TakingDown(pc: Pc, sp: SpId) {
    match pc
    case UnspDst(x, _) => x == sp
    case UnspState(x, _) => x == sp
    case UnspWait(x, _) => x == sp
    case UnspDropSrc(x, _) => x == sp
    case UnspDropDst(x, _) => x == sp
    case UnspFree(x, _) => x == sp
    case _ => false
  }

  ghost predicate HoldsRcv(pc: Pc, so: SockId) {
    (pc.Appended? && pc.so == so) || (pc.PushGot? && pc.so == so)
  }

  ghost predicate HoldsSnd(pc: Pc, so: SockId) {
    (pc.Dropped? && pc.so == so) || (pc.PullGot? && pc.so == so)
  }

  /** The states in which a ticket is out. */
  ghost predicate Active(s: SpState) {
    s == Queued || s == Running || s == Closing
  }

  ghost predicate Live(st: State, sp: SpId) {
    sp in st.sps && st.sps[sp].frees == 0
  }

  // ---- Each thread's view ----

  /** A splice waiting for its transfer: queued, or queued and being closed. */
  ghost predicate Waiting(st: State, sp: SpId, k: Ticket) {
    Live(st, sp) && st.sps[sp].ticket == k
    && (st.sps[sp].state == Queued || st.sps[sp].state == Closing)
  }

  ghost predicate RestOk(st: State, t: Tid, rest: seq<SpId>) {
    Distinct(rest) && forall i :: 0 <= i < |rest| ==> Waiting(st, rest[i], With(t))
  }

  ghost predicate InXfer(st: State, t: Tid, sp: SpId, rest: seq<SpId>, s1: SpState, s2: SpState, locked: bool) {
    && Live(st, sp) && st.sps[sp].ticket == With(t) && sp !in rest
    && (st.sps[sp].state == s1 || st.sps[sp].state == s2)
    && (locked ==> st.sps[sp].mtx == Some(t))
  }

  ghost predicate InSetup(st: State, t: Tid, sp: SpId, taken: nat, attached: bool) {
    && Live(st, sp) && st.sps[sp].state == Init && st.sps[sp].setup == Some(t)
    && st.sps[sp].srcTaken == taken && st.sps[sp].attached == attached && st.sps[sp].dst.Some?
  }

  ghost predicate InClose(st: State, t: Tid, sp: SpId, detached: bool, srcOut: nat, dstOut: nat) {
    && Live(st, sp) && st.sps[sp].closer == Some(t)
    && (if detached then !st.sps[sp].attached else (st.sps[sp].attached <==> st.sps[sp].dst.Some?))
    && st.sps[sp].srcDropped == srcOut && st.sps[sp].dstDropped == dstOut
  }

  ghost predicate PcOk(st: State, t: Tid, pc: Pc) {
    RestOk(st, t, RestOf(pc)) && PcMain(st, t, pc)
  }

  /** What the program point relies on about the splice or socket it names. */
  ghost predicate PcMain(st: State, t: Tid, pc: Pc) {
    match pc
    case Work(_) => true
    case Appended(so) => so in st.socks && st.socks[so].rcvLock == Some(t)
    case PushGot(so, sp) =>
      so in st.socks && st.socks[so].rcvLock == Some(t) && st.socks[so].splice == Some(sp)
    case Dropped(so) => so in st.socks && st.socks[so].sndLock == Some(t)
    case PullGot(so, sp) =>
      so in st.socks && st.socks[so].sndLock == Some(t) && st.socks[so].back == Some(sp)
    case Dispatching(sp) => Live(st, sp) && st.sps[sp].mtx == Some(t)
    case AsyncDue(sp, rest) => InXfer(st, t, sp, rest, Queued, Closing, false)
    case Xfer(sp, rest) => InXfer(st, t, sp, rest, Queued, Closing, true)
    case Moving(sp, rest) => InXfer(st, t, sp, rest, Running, Closing, false)
    case Moved(sp, rest, _) => InXfer(st, t, sp, rest, Running, Closing, false)
    case Deciding(sp, rest, _) => InXfer(st, t, sp, rest, Running, Closing, true)
    case ReadSpace(sp, rest) => InXfer(st, t, sp, rest, Running, Running, true)
    case GoIdle(sp, rest, _) => InXfer(st, t, sp, rest, Running, Running, true)
    case SetupSrc(sp) => InSetup(st, t, sp, 0, false)
    case SetupDst(sp) => InSetup(st, t, sp, 1, false)
    case SetupFail(sp) => InSetup(st, t, sp, 1, false)
    case SetupHeld(sp) => InSetup(st, t, sp, 1, true) && st.sps[sp].mtx == Some(t)
    case Unsplice(so, _) => so in st.socks
    case UnspDst(sp, _) => InClose(st, t, sp, false, 0, 0) && st.sps[sp].state !in {Init, Closing, Closed}
    case UnspState(sp, _) => InClose(st, t, sp, true, 0, 0) && st.sps[sp].state !in {Init, Closing, Closed}
    case UnspWait(sp, _) => InClose(st, t, sp, true, 0, 0) && st.sps[sp].state in {Closing, Closed}
    case UnspDropSrc(sp, _) => InClose(st, t, sp, true, 0, 0) && st.sps[sp].state == Closed
    case UnspDropDst(sp, _) => InClose(st, t, sp, true, 1, 0) && st.sps[sp].state == Closed
    case UnspFree(sp, _) =>
      Live(st, sp) && InClose(st, t, sp, true, 1, st.sps[sp].dstTaken) && st.sps[sp].state == Closed
  }

  // ---- Each splice's view ----

  /** Reference counts and life-cycle counters of one splice. */
  ghost predicate CountsOk(s: Splice) {
    && s.srcTaken <= 1 && s.dstTaken <= 1 && s.frees <= 1 && s.unsplices <= 1
    && s.srcDropped <= s.srcTaken && s.dstDropped <= s.dstTaken
    && (s.dst == None ==> s.dstTaken == 0)
    && (s.unsplices == 1 ==> s.srcTaken == 1)
    && (s.frees == 1 ==> && s.srcDropped == s.srcTaken && s.dstDropped == s.dstTaken
                         && s.unsplices == s.srcTaken && (s.srcTaken == 1 ==> s.state == Closed))
    && (s.frees == 0 ==> && (s.unsplices == 1 <==> s.closer.Some?)
                         && (s.closer == None ==> s.srcDropped == 0 && s.dstDropped == 0))
  }

  ghost predicate PhaseOk(s: Splice) {
    && (s.frees == 0 ==> (s.state == Init <==> s.setup.Some?))
    && (s.frees == 1 ==> s.setup == None && s.closer == None && s.ticket == NoTicket && s.mtx == None && !s.attached)
    && (s.ticket != NoTicket <==> Active(s.state))
    && (s.setup.Some? ==> s.closer == None)
    && (s.attached ==> s.dst.Some? && s.dstTaken == 1)
    && (s.srcTaken == 0 ==> s.state == Init && !s.attached && s.mtx == None && s.dstTaken == 0)
    && (s.frees == 0 && s.state != Init && s.closer == None ==> (s.attached <==> s.dst.Some?))
    && (s.state != Init ==> (s.dst.Some? <==> s.dstTaken == 1))
    && (s.state == Init ==> (s.attached <==> s.dstTaken == 1))
    && (s.state == Closed ==> s.mtx == None) && (s.state in {Closing, Closed} ==> !s.attached)
    && (s.frees == 0 && s.state == Closing ==> s.closer.Some?)
    && (s.frees == 0 && s.state == Closed ==> s.closer.Some?)
    && (Active(s.state) || s.state == Idle ==> s.dst.Some?)
  }

  /** Whoever the splice says has it is at a program point that has it. */
  ghost predicate OwnersOk(st: State, sp: SpId, s: Splice) {
    && (s.ticket.With? ==> s.ticket.t in st.thr && Carries(st.thr[s.ticket.t], sp))
    && (s.ticket == OnQueue ==> s.wq in st.queues && sp in st.queues[s.wq])
    && (s.mtx.Some? ==> s.mtx.value in st.thr && HoldsMutex(st.thr[s.mtx.value], sp))
    && (s.setup.Some? ==> s.setup.value in st.thr && SettingUp(st.thr[s.setup.value], sp))
    && (s.closer.Some? ==> s.closer.value in st.thr && TakingDown(st.thr[s.closer.value], sp))
  }

  /** The source points at the splice exactly while it is published and not being taken
      down; the sink exactly while it is attached. */
  ghost predicate PointersOk(st: State, sp: SpId, s: Splice) {
    && s.src in st.socks && s.wq in st.queues
    && (s.dst.Some? ==> s.dst.value in st.socks)
    && (s.frees == 0 && s.srcTaken == 1 && s.closer == None ==> st.socks[s.src].splice == Some(sp))
    && (s.attached ==> s.dst.Some? && s.dst.value in st.socks && st.socks[s.dst.value].back == Some(sp))
  }

  ghost predicate SpOk(st: State, sp: SpId, s: Splice) {
    CountsOk(s) && PhaseOk(s) && OwnersOk(st, sp, s) && PointersOk(st, sp, s)
  }

  // ---- Sockets and queues ----

  ghost predicate SockOk(st: State, so: SockId, k: Socket) {
    && (k.splice.Some? ==>
          && Live(st, k.splice.value)
          && var s := st.sps[k.splice.value]; s.src == so && s.srcTaken == 1 && s.closer == None)
    && (k.back.Some? ==>
          && Live(st, k.back.value)
          && var s := st.sps[k.back.value]; s.dst == Some(so) && s.attached)
    && (k.rcvLock.Some? ==> k.rcvLock.value in st.thr && HoldsRcv(st.thr[k.rcvLock.value], so))
    && (k.sndLock.Some? ==> k.sndLock.value in st.thr && HoldsSnd(st.thr[k.sndLock.value], so))
  }

  ghost predicate QueueOk(st: State, w: nat, q: seq<SpId>) {
    && Distinct(q)
    && forall i :: 0 <= i < |q| ==> Waiting(st, q[i], OnQueue) && st.sps[q[i]].wq == w
  }

  // ---- Work is not lost ----

  /** Some thread still has to look at the splice because data arrived or space opened. */
  ghost predicate WakeupDue(st: State, sp: SpId)
    requires sp in st.sps && st.sps[sp].src in st.socks
    requires st.sps[sp].dst.Some? && st.sps[sp].dst.value in st.socks
  {
    var s := st.sps[sp];
    || st.socks[s.src].rcvLock.Some?
    || st.socks[s.dst.value].sndLock.Some?
    || (s.mtx.Some? && s.mtx.value in st.thr && st.thr[s.mtx.value].Dispatching?)
  }

  ghost predicate BusyOk(st: State, sp: SpId)
    requires sp in st.sps && PointersOk(st, sp, st.sps[sp])
  {
    var s := st.sps[sp];
    s.frees == 0 && s.closer == None && s.dst.Some? && s.srcTaken == 1 ==>
      var src, dst := st.socks[s.src], st.socks[s.dst.value];
      && (s.state == Idle && src.avail > 0 && dst.space > 0 ==> WakeupDue(st, sp))
      && (s.mtx.Some? && s.mtx.value in st.thr && st.thr[s.mtx.value].GoIdle? ==>
            if st.thr[s.mtx.value].why == NoData then src.avail > 0 ==> src.rcvLock.Some?
            else dst.space > 0 ==> dst.sndLock.Some?)
  }

  ghost predicate ThreadsOk(st: State) { forall t :: t in st.thr ==> PcOk(st, t, st.thr[t]) }
  ghost predicate SplicesOk(st: State) { forall sp :: sp in st.sps ==> SpOk(st, sp, st.sps[sp]) }
  ghost predicate SocketsOk(st: State) { forall so :: so in st.socks ==> SockOk(st, so, st.socks[so]) }
  ghost predicate QueuesOk(st: State) { forall w :: w in st.queues ==> QueueOk(st, w, st.queues[w]) }

  ghost predicate NoWorkLost(st: State) {
    forall sp :: sp in st.sps && PointersOk(st, sp, st.sps[sp]) ==> BusyOk(st, sp)
  }

  ghost predicate Safe(st: State) {
    !st.panic && ThreadsOk(st) && SplicesOk(st) && SocketsOk(st) && QueuesOk(st)
  }
}
