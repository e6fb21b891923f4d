/** Socket splicing as interleaved lock-protected steps. Any number of threads, sockets,
    splices and work queues; every thread may act as worker, protocol input, set-up caller
    or closer. A step is one stretch of code between lock operations. */
module SpliceMachine {
  import opened Basics

  type Tid = nat
  type SockId = nat
  type SpId = nat

  datatype SpState = Init | Queued | Running | Closing | Idle | Exception | Closed

  /** Where the one transfer ticket of a splice is. */
  datatype Ticket = NoTicket | OnQueue | With(t: Tid)

  /** The first line is the source's structure; the rest is history the code does not have:
      where the ticket is, who sets the splice up, who takes it down, whether the sink still
      points back at it, and what was taken, dropped and freed on its behalf. */
  datatype Splice = Splice(
    state: SpState, src: SockId, dst: Option<SockId>, wq: nat, mtx: Option<Tid>,
    ticket: Ticket, setup: Option<Tid>, closer: Option<Tid>, attached: bool,
    srcTaken: nat, srcDropped: nat, dstTaken: nat, dstDropped: nat, frees: nat, unsplices: nat)

  /** splice is Some exactly while SB_SPLICED is set on the receive buffer, back likewise on
      the send buffer. avail and space are sbavail and sbspace. */
  datatype Socket = Socket(
    splice: Option<SpId>, back: Option<SpId>, avail: nat, space: int,
    rcvLock: Option<Tid>, sndLock: Option<Tid>)

  datatype Why = NoData | NoSpace

  /** Where a thread is. rest is what is left of the worker's private list. */
  datatype Pc =
    | Work(rest: seq<SpId>)
    | Appended(so: SockId)                    // holds the receive buffer lock, wakeup due
    | PushGot(so: SockId, sp: SpId)           // same, about to lock the splice
    | Dropped(so: SockId)                     // holds the send buffer lock, wakeup due
    | PullGot(so: SockId, sp: SpId)
    | Dispatching(sp: SpId)                   // holds the splice mutex
    | AsyncDue(sp: SpId, rest: seq<SpId>)
    | Xfer(sp: SpId, rest: seq<SpId>)         // holds the splice mutex
    | Moving(sp: SpId, rest: seq<SpId>)
    | Moved(sp: SpId, rest: seq<SpId>, stop: bool)
    | Deciding(sp: SpId, rest: seq<SpId>, stop: bool)   // holds the splice mutex
    | ReadSpace(sp: SpId, rest: seq<SpId>)    // holds the splice mutex
    | GoIdle(sp: SpId, rest: seq<SpId>, why: Why)       // holds the splice mutex
    | SetupSrc(sp: SpId)
    | SetupDst(sp: SpId)
    | SetupFail(sp: SpId)
    | SetupHeld(sp: SpId)                     // holds the splice mutex
    | Unsplice(so: SockId, rest: seq<SpId>)
    | UnspDst(sp: SpId, rest: seq<SpId>)
    | UnspState(sp: SpId, rest: seq<SpId>)
    | UnspWait(sp: SpId, rest: seq<SpId>)
    | UnspDropSrc(sp: SpId, rest: seq<SpId>)
    | UnspDropDst(sp: SpId, rest: seq<SpId>)
    | UnspFree(sp: SpId, rest: seq<SpId>)

  /** panic is set when an assertion of the code fails or an unreachable arm is taken. */
  datatype State = State(
    thr: map<Tid, Pc>, sps: map<SpId, Splice>, socks: map<SockId, Socket>,
    queues: map<nat, seq<SpId>>, panic: bool)

  datatype BufferStep =
    | Append(t: Tid, so: SockId, n: nat)
    | Drop(t: Tid, so: SockId, n: nat)
    | Wake(t: Tid)
    | LockToDispatch(t: Tid)
    | Dispatch(t: Tid)
    | Enqueue(t: Tid)

  datatype XferStep =
    | TakeQueue(t: Tid, w: nat)
    | LockNext(t: Tid)
    | BeginXfer(t: Tid)
    | Move(t: Tid, n: nat, m: nat, stop: bool)
    | Relock(t: Tid)
    | Decide(t: Tid, full: bool)
    | CheckSpace(t: Tid)
    | SetIdle(t: Tid)

  datatype SetupStep =
    | Alloc(t: Tid, sp: SpId, src: SockId, dst: SockId, w: nat)
    | PublishSrc(t: Tid, refuse: bool)
    | PublishDst(t: Tid, refuse: bool)
    | FailSetup(t: Tid)
    | FirstXfer(t: Tid)

  datatype CloseStep =
    | CallUnsplice(t: Tid, so: SockId)
    | Hide(t: Tid)
    | DetachDst(t: Tid)
    | SwitchState(t: Tid)
    | Wait(t: Tid)
    | DropSrc(t: Tid)
    | DropDst(t: Tid)
    | Free(t: Tid)

  datatype Step = Buffer(b: BufferStep) | Transfer(x: XferStep) | Setup(u: SetupStep) | Close(c: CloseStep)
  {
    function Thread(): Tid {
      match this
      case Buffer(b) => b.t
      case Transfer(x) => x.t
      case Setup(u) => u.t
      case Close(c) => c.t
    }
  }

  // ---- Shapes of a step: the thread moves on, and a splice or a socket changes ----

  function Next(st: State, t: Tid, pc: Pc): State {
    st.(thr := st.thr[t := pc])
  }

  function NextSp(st: State, t: Tid, pc: Pc, sp: SpId, s: Splice): State {
    st.(thr := st.thr[t := pc], sps := st.sps[sp := s])
  }

  function NextSock(st: State, t: Tid, pc: Pc, so: SockId, k: Socket): State {
    st.(thr := st.thr[t := pc], socks := st.socks[so := k])
  }

  function NextBoth(st: State, t: Tid, pc: Pc, sp: SpId, s: Splice, so: SockId, k: Socket): State {
    st.(thr := st.thr[t := pc], sps := st.sps[sp := s], socks := st.socks[so := k])
  }

  function Panic(st: State): State { st.(panic := true) }

  predicate Unlocked(st: State, sp: SpId) {
    sp in st.sps && st.sps[sp].mtx == None
  }

  predicate RcvFree(st: State, so: SockId) {
    so in st.socks && st.socks[so].rcvLock == None
  }

  predicate SndFree(st: State, so: SockId) {
    so in st.socks && st.socks[so].sndLock == None
  }

  /** What every step has in common: it moves thread t only, no splice changes its source or
      comes back to life, and a reference on a source is taken only by its installer. */
  ghost predicate Moves(st: State, st': State, t: Tid) {
    && t in st.thr && t in st'.thr && TakesDown(st, st.thr[t], st'.thr[t])
    && (forall u :: u in st.thr && u != t ==> u in st'.thr && st'.thr[u] == st.thr[u])
    && (forall u :: u in st'.thr ==> u in st.thr)
    && (forall x :: x in st.sps ==> x in st'.sps && SameSplice(st.thr[t], x, st.sps[x], st'.sps[x]))
    && (forall x :: x in st'.sps && x !in st.sps ==> st'.sps[x].srcTaken == 0)
  }

  ghost predicate SameSplice(pc: Pc, x: SpId, s: Splice, s': Splice) {
    && s'.src == s.src && s'.frees >= s.frees
    && (s'.srcTaken == s.srcTaken || (pc == SetupSrc(x) && s'.srcTaken == s.srcTaken + 1))
  }

  /** How a thread gets to, and along, the code that takes a splice down. */
  ghost predicate TakesDown(st: State, pc: Pc, pc': Pc) {
    match pc'
    case Unsplice(so, rest) =>
      || pc' == pc || (rest == [] && (pc == Work([]) || pc.SetupFail?))
      || (pc.Deciding? && pc.rest == rest && pc.sp in st.sps && st.sps[pc.sp].src == so)
    case UnspDst(sp, rest) =>
      pc' == pc || (pc.Unsplice? && pc.rest == rest && pc.so in st.socks && st.socks[pc.so].splice == Some(sp))
    case UnspState(sp, rest) => pc' == pc || pc == UnspDst(sp, rest)
    case UnspWait(sp, rest) => pc' == pc || pc == UnspState(sp, rest)
    case UnspDropSrc(sp, rest) =>
      || pc' == pc || pc == UnspState(sp, rest)
      || (pc == UnspWait(sp, rest) && sp in st.sps && st.sps[sp].state != Closing)
    case UnspDropDst(sp, rest) => pc' == pc || pc == UnspDropSrc(sp, rest)
    case UnspFree(sp, rest) => pc' == pc || pc == UnspDropDst(sp, rest)
    case _ => !pc.UnspWait?
  }

  predicate At(st: State, t: Tid, pc: Pc) { t in st.thr && st.thr[t] == pc }

  // ---- Buffer changes and their wakeups ----

  /** Data arrives; the receive buffer lock stays held for the wakeup. */
  predicate CanAppend(st: State, t: Tid, so: SockId) { At(st, t, Work([])) && RcvFree(st, so) }

  function DoAppend(st: State, t: Tid, so: SockId, n: nat): (st': State)
    requires CanAppend(st, t, so)
    ensures Moves(st, st', t)
  {
    var k := st.socks[so];
    NextSock(st, t, Appended(so), so, k.(avail := k.avail + n, rcvLock := Some(t)))
  }

  /** Space opens; the send buffer lock stays held for the wakeup. */
  predicate CanDrop(st: State, t: Tid, so: SockId) { At(st, t, Work([])) && SndFree(st, so) }

  function DoDrop(st: State, t: Tid, so: SockId, n: nat): (st': State)
    requires CanDrop(st, t, so)
    ensures Moves(st, st', t)
  {
    var k := st.socks[so];
    NextSock(st, t, Dropped(so), so, k.(space := k.space + n, sndLock := Some(t)))
  }

  predicate CanWake(st: State, t: Tid) {
    t in st.thr && (st.thr[t].Appended? || st.thr[t].Dropped?) && st.thr[t].so in st.socks
  }

  function DoWake(st: State, t: Tid): (st': State)
    requires CanWake(st, t)
    ensures Moves(st, st', t)
  {
    var so := st.thr[t].so;
    var k := st.socks[so];
    if st.thr[t].Appended? then
      if k.splice.Some? then Next(st, t, PushGot(so, k.splice.value))
      else NextSock(st, t, Work([]), so, k.(rcvLock := None))
    else
      if k.back.Some? then Next(st, t, PullGot(so, k.back.value))
      else NextSock(st, t, Work([]), so, k.(sndLock := None))
  }

  predicate CanLockToDispatch(st: State, t: Tid) {
    && t in st.thr && (st.thr[t].PushGot? || st.thr[t].PullGot?)
    && st.thr[t].so in st.socks && Unlocked(st, st.thr[t].sp)
  }

  function DoLockToDispatch(st: State, t: Tid): (st': State)
    requires CanLockToDispatch(st, t)
    ensures Moves(st, st', t)
  {
    var so, sp := st.thr[t].so, st.thr[t].sp;
    var k := st.socks[so];
    NextBoth(st, t, Dispatching(sp), sp, st.sps[sp].(mtx := Some(t)),
             so, if st.thr[t].PushGot? then k.(rcvLock := None) else k.(sndLock := None))
  }

  predicate CanDispatch(st: State, t: Tid) {
    t in st.thr && st.thr[t].Dispatching? && st.thr[t].sp in st.sps
  }

  function DoDispatch(st: State, t: Tid): (st': State)
    requires CanDispatch(st, t)
    ensures Moves(st, st', t)
  {
    var sp := st.thr[t].sp;
    var s := st.sps[sp];
    if s.state == Idle
    then NextSp(st, t, AsyncDue(sp, []), sp, s.(state := Queued, mtx := None, ticket := With(t)))
    else NextSp(st, t, Work([]), sp, s.(mtx := None))
  }

  predicate CanEnqueue(st: State, t: Tid) {
    && t in st.thr && st.thr[t].AsyncDue? && st.thr[t].sp in st.sps
    && st.sps[st.thr[t].sp].wq in st.queues
  }

  function DoEnqueue(st: State, t: Tid): (st': State)
    requires CanEnqueue(st, t)
    ensures Moves(st, st', t)
  {
    var sp := st.thr[t].sp;
    var s := st.sps[sp];
    NextSp(st, t, Work(st.thr[t].rest), sp, s.(ticket := OnQueue))
      .(queues := st.queues[s.wq := st.queues[s.wq] + [sp]])
  }

  // ---- The worker and the transfer ----

  predicate CanTakeQueue(st: State, t: Tid, w: nat) {
    At(st, t, Work([])) && w in st.queues && st.queues[w] != []
  }

  function DoTakeQueue(st: State, t: Tid, w: nat): (st': State)
    requires CanTakeQueue(st, t, w)
    ensures Moves(st, st', t)
  {
    var q := st.queues[w];
    st.(thr := st.thr[t := Work(q)],
        sps := map x | x in st.sps :: if x in q then st.sps[x].(ticket := With(t)) else st.sps[x],
        queues := st.queues[w := []])
  }

  predicate CanLockNext(st: State, t: Tid) {
    t in st.thr && st.thr[t].Work? && st.thr[t].rest != [] && Unlocked(st, st.thr[t].rest[0])
  }

  function DoLockNext(st: State, t: Tid): (st': State)
    requires CanLockNext(st, t)
    ensures Moves(st, st', t)
  {
    var rest := st.thr[t].rest;
    NextSp(st, t, Xfer(rest[0], rest[1..]), rest[0], st.sps[rest[0]].(mtx := Some(t)))
  }

  predicate CanBeginXfer(st: State, t: Tid) {
    t in st.thr && st.thr[t].Xfer? && st.thr[t].sp in st.sps
  }

  function DoBeginXfer(st: State, t: Tid): (st': State)
    requires CanBeginXfer(st, t)
    ensures Moves(st, st', t)
  {
    var sp, rest := st.thr[t].sp, st.thr[t].rest;
    var s := st.sps[sp];
    if s.state == Closing
    then NextSp(st, t, Work(rest), sp, s.(state := Closed, mtx := None, ticket := NoTicket))
    else if s.state == Queued then NextSp(st, t, Moving(sp, rest), sp, s.(state := Running, mtx := None))
    else Panic(st)
  }

  /** Under both I/O locks, n bytes leave the source and m of them reach the sink; stop says
      that an error came up. */
  predicate CanMove(st: State, t: Tid, n: nat, m: nat) {
    && t in st.thr && st.thr[t].Moving? && m <= n && st.thr[t].sp in st.sps
    && var s := st.sps[st.thr[t].sp];
       && s.src in st.socks && s.dst.Some? && s.dst.value in st.socks
       && n <= st.socks[s.src].avail
       && (n > 0 ==> n <= st.socks[s.dst.value].space)
  }

  function DoMove(st: State, t: Tid, n: nat, m: nat, stop: bool): (st': State)
    requires CanMove(st, t, n, m)
    ensures Moves(st, st', t)
  {
    var s := st.sps[st.thr[t].sp];
    var k := st.socks[s.src];
    var socks := st.socks[s.src := k.(avail := k.avail - n)];
    var d := socks[s.dst.value];
    Next(st, t, Moved(st.thr[t].sp, st.thr[t].rest, stop))
      .(socks := socks[s.dst.value := d.(space := d.space - m)])
  }

  predicate CanRelock(st: State, t: Tid) {
    t in st.thr && st.thr[t].Moved? && Unlocked(st, st.thr[t].sp)
  }

  function DoRelock(st: State, t: Tid): (st': State)
    requires CanRelock(st, t)
    ensures Moves(st, st', t)
  {
    var pc := st.thr[t];
    NextSp(st, t, Deciding(pc.sp, pc.rest, pc.stop), pc.sp, st.sps[pc.sp].(mtx := Some(t)))
  }

  predicate CanDecide(st: State, t: Tid) {
    && t in st.thr && st.thr[t].Deciding? && st.thr[t].sp in st.sps
    && st.sps[st.thr[t].sp].src in st.socks
  }

  /** full says that the splice has reached its byte limit. */
  function DoDecide(st: State, t: Tid, full: bool): (st': State)
    requires CanDecide(st, t)
    ensures Moves(st, st', t)
  {
    var sp, rest := st.thr[t].sp, st.thr[t].rest;
    var s := st.sps[sp];
    if s.state == Closing
    then NextSp(st, t, Work(rest), sp, s.(state := Closed, mtx := None, ticket := NoTicket))
    else if s.state != Running then Panic(st)
    else if st.thr[t].stop || full
    then NextSp(st, t, Unsplice(s.src, rest), sp, s.(state := Exception, mtx := None, ticket := NoTicket))
    else if st.socks[s.src].avail > 0 then Next(st, t, ReadSpace(sp, rest))
    else Next(st, t, GoIdle(sp, rest, NoData))
  }

  predicate CanCheckSpace(st: State, t: Tid) {
    && t in st.thr && st.thr[t].ReadSpace? && st.thr[t].sp in st.sps
    && st.sps[st.thr[t].sp].dst.Some? && st.sps[st.thr[t].sp].dst.value in st.socks
  }

  function DoCheckSpace(st: State, t: Tid): (st': State)
    requires CanCheckSpace(st, t)
    ensures Moves(st, st', t)
  {
    var sp, rest := st.thr[t].sp, st.thr[t].rest;
    var s := st.sps[sp];
    if st.socks[s.dst.value].space > 0
    then NextSp(st, t, AsyncDue(sp, rest), sp, s.(state := Queued, mtx := None))
    else Next(st, t, GoIdle(sp, rest, NoSpace))
  }

  predicate CanSetIdle(st: State, t: Tid) {
    t in st.thr && st.thr[t].GoIdle? && st.thr[t].sp in st.sps
  }

  function DoSetIdle(st: State, t: Tid): (st': State)
    requires CanSetIdle(st, t)
    ensures Moves(st, st', t)
  {
    var sp := st.thr[t].sp;
    NextSp(st, t, Work(st.thr[t].rest), sp, st.sps[sp].(state := Idle, mtx := None, ticket := NoTicket))
  }

  // ---- Set-up ----

  predicate CanAlloc(st: State, t: Tid, sp: SpId, src: SockId, dst: SockId, w: nat) {
    At(st, t, Work([])) && sp !in st.sps && src in st.socks && dst in st.socks && w in st.queues
  }

  function NewSplice(t: Tid, src: SockId, dst: SockId, w: nat): Splice {
    Splice(Init, src, Some(dst), w, None, NoTicket, Some(t), None, false, 0, 0, 0, 0, 0, 0)
  }

  function DoAlloc(st: State, t: Tid, sp: SpId, src: SockId, dst: SockId, w: nat): (st': State)
    requires CanAlloc(st, t, sp, src, dst, w)
    ensures Moves(st, st', t)
  {
    NextSp(st, t, SetupSrc(sp), sp, NewSplice(t, src, dst, w))
  }

  predicate CanPublishSrc(st: State, t: Tid) {
    t in st.thr && st.thr[t].SetupSrc? && st.thr[t].sp in st.sps && RcvFree(st, st.sps[st.thr[t].sp].src)
  }

  /** refuse stands for a listening or unconnected source. */
  function DoPublishSrc(st: State, t: Tid, refuse: bool): (st': State)
    requires CanPublishSrc(st, t)
    ensures Moves(st, st', t)
  {
    var sp := st.thr[t].sp;
    var s := st.sps[sp];
    var k := st.socks[s.src];
    if refuse || k.splice.Some?
    then NextSp(st, t, Work([]), sp, s.(setup := None, frees := s.frees + 1))
    else NextBoth(st, t, SetupDst(sp), sp, s.(srcTaken := s.srcTaken + 1), s.src, k.(splice := Some(sp)))
  }

  predicate CanPublishDst(st: State, t: Tid) {
    && t in st.thr && st.thr[t].SetupDst? && Unlocked(st, st.thr[t].sp)
    && st.sps[st.thr[t].sp].dst.Some? && SndFree(st, st.sps[st.thr[t].sp].dst.value)
  }

  /** refuse stands for a listening or unconnected sink. */
  function DoPublishDst(st: State, t: Tid, refuse: bool): (st': State)
    requires CanPublishDst(st, t)
    ensures Moves(st, st', t)
  {
    var sp := st.thr[t].sp;
    var s := st.sps[sp];
    var k := st.socks[s.dst.value];
    if refuse || k.back.Some? then Next(st, t, SetupFail(sp))
    else NextBoth(st, t, SetupHeld(sp), sp, s.(attached := true, dstTaken := s.dstTaken + 1, mtx := Some(t)),
                  s.dst.value, k.(back := Some(sp)))
  }

  predicate CanFailSetup(st: State, t: Tid) {
    t in st.thr && st.thr[t].SetupFail? && Unlocked(st, st.thr[t].sp)
  }

  function DoFailSetup(st: State, t: Tid): (st': State)
    requires CanFailSetup(st, t)
    ensures Moves(st, st', t)
  {
    var sp := st.thr[t].sp;
    var s := st.sps[sp];
    NextSp(st, t, Unsplice(s.src, []), sp, s.(dst := None, state := Exception, setup := None))
  }

  predicate CanFirstXfer(st: State, t: Tid) {
    t in st.thr && st.thr[t].SetupHeld? && st.thr[t].sp in st.sps
  }

  function DoFirstXfer(st: State, t: Tid): (st': State)
    requires CanFirstXfer(st, t)
    ensures Moves(st, st', t)
  {
    var sp := st.thr[t].sp;
    var s := st.sps[sp];
    if s.state == Init
    then NextSp(st, t, Xfer(sp, []), sp, s.(state := Queued, setup := None, ticket := With(t)))
    else Panic(st)
  }

  // ---- Taking a splice down ----

  predicate CanCallUnsplice(st: State, t: Tid, so: SockId) { At(st, t, Work([])) && so in st.socks }

  function DoCallUnsplice(st: State, t: Tid, so: SockId): (st': State)
    requires CanCallUnsplice(st, t, so)
    ensures Moves(st, st', t)
  {
    Next(st, t, Unsplice(so, []))
  }

  predicate CanHide(st: State, t: Tid) {
    && t in st.thr && st.thr[t].Unsplice? && RcvFree(st, st.thr[t].so)
    && (st.socks[st.thr[t].so].splice.Some? ==> Unlocked(st, st.socks[st.thr[t].so].splice.value))
  }

  function DoHide(st: State, t: Tid): (st': State)
    requires CanHide(st, t)
    ensures Moves(st, st', t)
  {
    var so, rest := st.thr[t].so, st.thr[t].rest;
    var k := st.socks[so];
    if k.splice == None || st.sps[k.splice.value].state == Init then Next(st, t, Work(rest))
    else
      var sp := k.splice.value;
      var s := st.sps[sp];
      NextBoth(st, t, UnspDst(sp, rest), sp, s.(closer := Some(t), unsplices := s.unsplices + 1),
               so, k.(splice := None))
  }

  predicate CanDetachDst(st: State, t: Tid) {
    && t in st.thr && st.thr[t].UnspDst? && st.thr[t].sp in st.sps
    && (st.sps[st.thr[t].sp].dst.Some? ==> SndFree(st, st.sps[st.thr[t].sp].dst.value))
  }

  function DoDetachDst(st: State, t: Tid): (st': State)
    requires CanDetachDst(st, t)
    ensures Moves(st, st', t)
  {
    var sp, rest := st.thr[t].sp, st.thr[t].rest;
    var s := st.sps[sp];
    if s.dst == None then Next(st, t, UnspState(sp, rest))
    else
      var k := st.socks[s.dst.value];
      if k.back != Some(sp) then Panic(st)
      else NextBoth(st, t, UnspState(sp, rest), sp, s.(attached := false), s.dst.value, k.(back := None))
  }

  predicate CanSwitchState(st: State, t: Tid) {
    t in st.thr && st.thr[t].UnspState? && Unlocked(st, st.thr[t].sp)
  }

  function DoSwitchState(st: State, t: Tid): (st': State)
    requires CanSwitchState(st, t)
    ensures Moves(st, st', t)
  {
    var sp, rest := st.thr[t].sp, st.thr[t].rest;
    var s := st.sps[sp];
    if s.state == Queued || s.state == Running
    then NextSp(st, t, UnspWait(sp, rest), sp, s.(state := Closing))
    else if s.state == Init || s.state == Idle || s.state == Exception
    then NextSp(st, t, UnspDropSrc(sp, rest), sp, s.(state := Closed))
    else Panic(st)
  }

  /** The closer wakes, possibly spuriously, and looks again. */
  predicate CanWait(st: State, t: Tid) {
    t in st.thr && st.thr[t].UnspWait? && Unlocked(st, st.thr[t].sp)
  }

  function DoWait(st: State, t: Tid): (st': State)
    requires CanWait(st, t)
    ensures Moves(st, st', t)
  {
    var pc := st.thr[t];
    Next(st, t, if st.sps[pc.sp].state == Closing then pc else UnspDropSrc(pc.sp, pc.rest))
  }

  predicate CanDropSrc(st: State, t: Tid) {
    t in st.thr && st.thr[t].UnspDropSrc? && st.thr[t].sp in st.sps
  }

  function DoDropSrc(st: State, t: Tid): (st': State)
    requires CanDropSrc(st, t)
    ensures Moves(st, st', t)
  {
    var pc := st.thr[t];
    var s := st.sps[pc.sp];
    NextSp(st, t, UnspDropDst(pc.sp, pc.rest), pc.sp, s.(srcDropped := s.srcDropped + 1))
  }

  predicate CanDropDst(st: State, t: Tid) {
    t in st.thr && st.thr[t].UnspDropDst? && st.thr[t].sp in st.sps
  }

  function DoDropDst(st: State, t: Tid): (st': State)
    requires CanDropDst(st, t)
    ensures Moves(st, st', t)
  {
    var pc := st.thr[t];
    var s := st.sps[pc.sp];
    NextSp(st, t, UnspFree(pc.sp, pc.rest), pc.sp,
           if s.dst == None then s else s.(dstDropped := s.dstDropped + 1))
  }

  predicate CanFree(st: State, t: Tid) {
    t in st.thr && st.thr[t].UnspFree? && st.thr[t].sp in st.sps
  }

  function DoFree(st: State, t: Tid): (st': State)
    requires CanFree(st, t)
    ensures Moves(st, st', t)
  {
    var pc := st.thr[t];
    var s := st.sps[pc.sp];
    if s.state != Closed then Panic(st)
    else NextSp(st, t, Work(pc.rest), pc.sp, s.(closer := None, frees := s.frees + 1))
  }

  // ---- Runs ----

  predicate BufferEnabled(st: State, e: BufferStep) {
    match e
    case Append(t, so, _) => CanAppend(st, t, so)
    case Drop(t, so, _) => CanDrop(st, t, so)
    case Wake(t) => CanWake(st, t)
    case LockToDispatch(t) => CanLockToDispatch(st, t)
    case Dispatch(t) => CanDispatch(st, t)
    case Enqueue(t) => CanEnqueue(st, t)
  }

  function ApplyBuffer(st: State, e: BufferStep): (st': State)
    requires BufferEnabled(st, e)
    ensures Moves(st, st', e.t)
  {
    hide CanAppend, CanDrop, CanWake, CanLockToDispatch, CanDispatch, CanEnqueue,
         DoAppend, DoDrop, DoWake, DoLockToDispatch, DoDispatch, DoEnqueue, Moves;
    match e
    case Append(t, so, n) => DoAppend(st, t, so, n)
    case Drop(t, so, n) => DoDrop(st, t, so, n)
    case Wake(t) => DoWake(st, t)
    case LockToDispatch(t) => DoLockToDispatch(st, t)
    case Dispatch(t) => DoDispatch(st, t)
    case Enqueue(t) => DoEnqueue(st, t)
  }

  predicate TransferEnabled(st: State, e: XferStep) {
    match e
    case TakeQueue(t, w) => CanTakeQueue(st, t, w)
    case LockNext(t) => CanLockNext(st, t)
    case BeginXfer(t) => CanBeginXfer(st, t)
    case Move(t, n, m, _) => CanMove(st, t, n, m)
    case Relock(t) => CanRelock(st, t)
    case Decide(t, _) => CanDecide(st, t)
    case CheckSpace(t) => CanCheckSpace(st, t)
    case SetIdle(t) => CanSetIdle(st, t)
  }

  function ApplyTransfer(st: State, e: XferStep): (st': State)
    requires TransferEnabled(st, e)
    ensures Moves(st, st', e.t)
  {
    hide CanTakeQueue, CanLockNext, CanBeginXfer, CanMove, CanRelock, CanDecide,
         CanCheckSpace, CanSetIdle,
         DoTakeQueue, DoLockNext, DoBeginXfer, DoMove, DoRelock, DoDecide,
         DoCheckSpace, DoSetIdle, Moves;
    match e
    case TakeQueue(t, w) => DoTakeQueue(st, t, w)
    case LockNext(t) => DoLockNext(st, t)
    case BeginXfer(t) => DoBeginXfer(st, t)
    case Move(t, n, m, stop) => DoMove(st, t, n, m, stop)
    case Relock(t) => DoRelock(st, t)
    case Decide(t, full) => DoDecide(st, t, full)
    case CheckSpace(t) => DoCheckSpace(st, t)
    case SetIdle(t) => DoSetIdle(st, t)
  }

  predicate SetupEnabled(st: State, e: SetupStep) {
    match e
    case Alloc(t, sp, src, dst, w) => CanAlloc(st, t, sp, src, dst, w)
    case PublishSrc(t, _) => CanPublishSrc(st, t)
    case PublishDst(t, _) => CanPublishDst(st, t)
    case FailSetup(t) => CanFailSetup(st, t)
    case FirstXfer(t) => CanFirstXfer(st, t)
  }

  function ApplySetup(st: State, e: SetupStep): (st': State)
    requires SetupEnabled(st, e)
    ensures Moves(st, st', e.t)
  {
    hide CanAlloc, CanPublishSrc, CanPublishDst, CanFailSetup, CanFirstXfer,
         DoAlloc, DoPublishSrc, DoPublishDst, DoFailSetup, DoFirstXfer, Moves;
    match e
    case Alloc(t, sp, src, dst, w) => DoAlloc(st, t, sp, src, dst, w)
    case PublishSrc(t, refuse) => DoPublishSrc(st, t, refuse)
    case PublishDst(t, refuse) => DoPublishDst(st, t, refuse)
    case FailSetup(t) => DoFailSetup(st, t)
    case FirstXfer(t) => DoFirstXfer(st, t)
  }

  predicate CloseEnabled(st: State, e: CloseStep) {
    match e
    case CallUnsplice(t, so) => CanCallUnsplice(st, t, so)
    case Hide(t) => CanHide(st, t)
    case DetachDst(t) => CanDetachDst(st, t)
    case SwitchState(t) => CanSwitchState(st, t)
    case Wait(t) => CanWait(st, t)
    case DropSrc(t) => CanDropSrc(st, t)
    case DropDst(t) => CanDropDst(st, t)
    case Free(t) => CanFree(st, t)
  }

  function ApplyClose(st: State, e: CloseStep): (st': State)
    requires CloseEnabled(st, e)
    ensures Moves(st, st', e.t)
  {
    hide CanCallUnsplice, CanHide, CanDetachDst, CanSwitchState, CanWait, CanDropSrc,
         CanDropDst, CanFree,
         DoCallUnsplice, DoHide, DoDetachDst, DoSwitchState, DoWait, DoDropSrc,
         DoDropDst, DoFree, Moves;
    match e
    case CallUnsplice(t, so) => DoCallUnsplice(st, t, so)
    case Hide(t) => DoHide(st, t)
    case DetachDst(t) => DoDetachDst(st, t)
    case SwitchState(t) => DoSwitchState(st, t)
    case Wait(t) => DoWait(st, t)
    case DropSrc(t) => DoDropSrc(st, t)
    case DropDst(t) => DoDropDst(st, t)
    case Free(t) => DoFree(st, t)
  }

  /** The step is at the thread's program point and every lock it takes is free. */
  predicate Enabled(st: State, e: Step) {
    match e
    case Buffer(b) => BufferEnabled(st, b)
    case Transfer(x) => TransferEnabled(st, x)
    case Setup(u) => SetupEnabled(st, u)
    case Close(c) => CloseEnabled(st, c)
  }

  function Apply(st: State, e: Step): (st': State)
    requires Enabled(st, e)
    ensures Moves(st, st', e.Thread())
  {
    hide BufferEnabled, TransferEnabled, SetupEnabled, CloseEnabled,
         ApplyBuffer, ApplyTransfer, ApplySetup, ApplyClose, Moves;
    match e
    case Buffer(b) => ApplyBuffer(st, b)
    case Transfer(x) => ApplyTransfer(st, x)
    case Setup(u) => ApplySetup(st, u)
    case Close(c) => ApplyClose(st, c)
  }

  ghost predicate Initial(st: State) {
    && (forall t :: t in st.thr ==> st.thr[t] == Work([]))
    && st.sps == map[]
    && (forall so :: so in st.socks ==>
          var k := st.socks[so];
          k.splice == None && k.back == None && k.rcvLock == None && k.sndLock == None)
    && (forall w :: w in st.queues ==> st.queues[w] == [])
    && !st.panic
  }

  /** A run: every state follows from the one before by an enabled step. */
  ghost predicate IsRun(run: seq<State>, steps: seq<Step>) {
    && |run| == |steps| + 1
    && Initial(run[0])
    && forall i :: 0 <= i < |steps| ==> Enabled(run[i], steps[i]) && run[i + 1] == Apply(run[i], steps[i])
  }
}
