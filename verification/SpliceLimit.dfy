/** The byte limit of a splice. The machine leaves open when a limit is reached; here a ledger of
    so_splice_sent and sp_max, kept beside it, decides, so that every run with a ledger is a run of the
    machine. A splice carries its limit once for each so_splice call on its source while it lives, its
    own included, and no more. */
module SpliceLimit {
  import opened Basics
  import opened SpliceMachine
  import opened SpliceInvariant
  import opened SpliceFrame
  import opened SpliceSteps

  /** sent is so_splice_sent of each source, limit is sp_max of each splice (0 for none), room and len
      are the local max and len of a thread in so_splice_xfer. The rest is history: what left the
      source on behalf of a splice, how much of it since the source's count was last set to 0, and
      how often that happened while the splice was there. */
  datatype Ledger = Ledger(
    sent: map<SockId, nat>, limit: map<SpId, nat>, room: map<Tid, Option<nat>>, len: map<Tid, nat>,
    moved: map<SpId, nat>, since: map<SpId, nat>, resets: map<SpId, nat>)

  function RoomOf(l: Ledger, t: Tid): Option<nat> { if t in l.room then l.room[t] else None }

  const NoEntries := Ledger(map[], map[], map[], map[], map[], map[], map[])

  /** What so_splice_xfer may move: nothing beyond the limit, if there is one. */
  function Allowance(l: Ledger, sp: SpId, src: SockId): Option<nat> {
    var max, sent := Get(l.limit, sp), Get(l.sent, src);
    if max == 0 then None else if sent >= max then Some(0) else Some(max - sent)
  }

  predicate Full(l: Ledger, sp: SpId, src: SockId) { Get(l.limit, sp) > 0 && Get(l.sent, src) >= Get(l.limit, sp) }

  /** The machine's step, with its choices made by the ledger. */
  predicate Allowed(st: State, l: Ledger, e: Step)
    requires Enabled(st, e)
  {
    match e
    case Transfer(Move(t, n, m, stop)) => (RoomOf(l, t).Some? ==> n <= RoomOf(l, t).value) && (!stop ==> m == n)
    case Transfer(Decide(t, full)) => full == Full(l, st.thr[t].sp, st.sps[st.thr[t].sp].src)
    case _ => true
  }

  /** so_splice sets the source's count to 0 before it looks whether the source is spliced already. */
  function Reset(st: State, l: Ledger, sp: SpId, src: SockId, max: nat): Ledger {
    l.(sent := l.sent[src := 0], limit := l.limit[sp := max], moved := l.moved[sp := 0],
       since := (map x | x in st.sps :: if Counted(st.sps[x], src) then 0 else Get(l.since, x))[sp := 0],
       resets := (map x | x in st.sps :: Get(l.resets, x) + if Counted(st.sps[x], src) then 1 else 0)[sp := 0])
  }

  predicate Counted(s: Splice, src: SockId) { s.src == src && s.frees == 0 }

  function Noted(st: State, l: Ledger, e: Step, max: nat): Ledger
    requires Enabled(st, e)
  {
    match e
    case Setup(Alloc(t, sp, src, dst, w)) => Reset(st, l, sp, src, max)
    case Transfer(BeginXfer(t)) =>
      var sp := st.thr[t].sp;
      l.(room := l.room[t := Allowance(l, sp, st.sps[sp].src)])
    case Transfer(Move(t, n, m, stop)) =>
      var sp := st.thr[t].sp;
      l.(len := l.len[t := n], moved := l.moved[sp := Get(l.moved, sp) + n],
         since := l.since[sp := Get(l.since, sp) + n])
    case Transfer(Relock(t)) =>
      var src := st.sps[st.thr[t].sp].src;
      if st.thr[t].stop then l else l.(sent := l.sent[src := Get(l.sent, src) + Get(l.len, t)])
    case _ => l
  }

  /** A run with its ledger; maxes gives the limit asked for in each so_splice call. */
  ghost predicate LimitedRun(run: seq<State>, steps: seq<Step>, ledgers: seq<Ledger>, maxes: seq<nat>) {
    && IsRun(run, steps) && |ledgers| == |run| && |maxes| == |steps| && ledgers[0] == NoEntries
    && forall i :: 0 <= i < |steps| ==>
         Allowed(run[i], ledgers[i], steps[i]) && ledgers[i + 1] == Noted(run[i], ledgers[i], steps[i], maxes[i])
  }

  // ---- Where the ticket is on its way through a transfer ----

  datatype Stage = Rest | Loading(t: Tid) | Unloading(t: Tid) | Failed

  ghost function StageOf(st: State, x: SpId): Stage
    requires x in st.sps
  {
    var k := st.sps[x].ticket;
    if !k.With? || k.t !in st.thr then Rest else StageAt(st.thr[k.t], k.t, x)
  }

  ghost function StageAt(pc: Pc, t: Tid, x: SpId): Stage {
    match pc
    case Moving(y, _) => if y == x then Loading(t) else Rest
    case Moved(y, _, stop) => if y != x then Rest else if stop then Failed else Unloading(t)
    case Deciding(y, _, stop) => if y == x && stop then Failed else Rest
    case _ => Rest
  }

  ghost predicate Ended(s: Splice) { s.frees > 0 || s.state == Exception || s.state == Closed }

  /** What has been moved since the last reset is covered by the count, or about to be. */
  ghost predicate Covered(st: State, l: Ledger, x: SpId)
    requires x in st.sps
  {
    var since, sent := Get(l.since, x), Get(l.sent, st.sps[x].src);
    match StageOf(st, x)
    case Rest => !Ended(st.sps[x]) ==> since <= sent
    case Loading(t) => since <= sent && RoomOf(l, t).Some? && since + RoomOf(l, t).value <= Get(l.limit, x)
    case Unloading(t) => since <= sent + Get(l.len, t)
    case Failed => true
  }

  ghost predicate Within(l: Ledger, x: SpId) {
    && Get(l.since, x) <= Get(l.limit, x)
    && Get(l.moved, x) <= Get(l.since, x) + Get(l.limit, x) * Get(l.resets, x)
  }

  ghost predicate SpLimit(st: State, l: Ledger, x: SpId)
    requires x in st.sps
  {
    Get(l.limit, x) > 0 ==> Within(l, x) && Covered(st, l, x)
  }

  ghost predicate LimitInv(st: State, l: Ledger) { forall x :: x in st.sps ==> SpLimit(st, l, x) }

  // ---- Steps that do not touch a transfer ----

  ghost predicate QuietPc(pc: Pc) { !pc.Moving? && !pc.Moved? && !(pc.Deciding? && pc.stop) }

  /** Tickets move only to, from or past the stepping thread, and an ended splice stays so. */
  ghost predicate QuietAt(s: Splice, s': Splice, t: Tid) {
    && (s'.ticket == s.ticket || ((s.ticket.With? ==> s.ticket.t == t) && (s'.ticket.With? ==> s'.ticket.t == t)))
    && (Ended(s) ==> Ended(s')) && s'.src == s.src
  }

  ghost predicate Quiet(st: State, st': State, t: Tid) {
    && t in st.thr && QuietPc(st.thr[t]) && t in st'.thr && QuietPc(st'.thr[t])
    && (forall u :: u in st.thr && u != t ==> u in st'.thr && st'.thr[u] == st.thr[u])
    && (forall u :: u in st'.thr ==> u in st.thr)
    && st'.sps.Keys == st.sps.Keys && (forall x :: x in st.sps ==> QuietAt(st.sps[x], st'.sps[x], t))
  }

  lemma {:induction false} QuietStage(st: State, st': State, t: Tid, x: SpId)
    requires Quiet(st, st', t) && x in st.sps
    ensures x in st'.sps && StageOf(st', x) == StageOf(st, x) && (Ended(st.sps[x]) ==> Ended(st'.sps[x]))
    ensures st'.sps[x].src == st.sps[x].src
  {
    assert QuietAt(st.sps[x], st'.sps[x], t);
  }

  /** With the ledger as it was, such a step keeps the invariant. */
  lemma {:induction false} QuietKeeps(st: State, st': State, t: Tid, l: Ledger)
    requires LimitInv(st, l) && Quiet(st, st', t)
    ensures LimitInv(st', l)
  {
    hide StageOf, Within, Ended, QuietAt, QuietPc;
    forall x | x in st'.sps ensures SpLimit(st', l, x) {
      QuietStage(st, st', t, x);
      assert SpLimit(st, l, x);
    }
  }

  /** The thread moves on and no splice changes. */
  lemma {:induction false} QuietNext(st: State, st': State, t: Tid, pc: Pc)
    requires t in st.thr && QuietPc(st.thr[t]) && QuietPc(pc) && st'.thr == st.thr[t := pc] && st'.sps == st.sps
    ensures Quiet(st, st', t)
  {
  }

  /** The thread moves on and one splice changes. */
  lemma {:induction false} QuietNextSp(st: State, st': State, t: Tid, pc: Pc, sp: SpId, s: Splice)
    requires t in st.thr && QuietPc(st.thr[t]) && QuietPc(pc) && st'.thr == st.thr[t := pc]
    requires st'.sps == st.sps[sp := s]
    requires sp in st.sps && QuietAt(st.sps[sp], s, t)
    ensures Quiet(st, st', t)
  {
  }

  // ---- Facts ----

  lemma {:induction false} SpliceFacts(st: State, x: SpId)
    requires Safe(st) && x in st.sps
    ensures st.sps[x].ticket != NoTicket <==> Active(st.sps[x].state)
    ensures st.sps[x].frees > 0 ==> st.sps[x].ticket == NoTicket
  {
    hide ThreadsOk, SplicesOk, SocketsOk, QueuesOk, OwnersOk, PointersOk, CountsOk;
    SpAt(st, x);
    FreedOnce(st, x);
  }

  lemma {:induction false} FreedOnce(st: State, x: SpId)
    requires Safe(st) && x in st.sps
    ensures st.sps[x].frees <= 1
  {
    hide ThreadsOk, SplicesOk, SocketsOk, QueuesOk, OwnersOk, PointersOk, PhaseOk;
    SpAt(st, x);
  }

  /** A thread with a ticket of its own, or setting up or dispatching, has a splice that is not freed. */
  lemma {:induction false} PcFacts(st: State, t: Tid)
    requires Safe(st) && t in st.thr
    ensures PcMain(st, t, st.thr[t])
  {
    hide ThreadsOk, SplicesOk, SocketsOk, QueuesOk, PcMain, RestOk;
    PcAt(st, t);
  }

  lemma {:induction false} QueueFacts(st: State, w: nat, x: SpId)
    requires Safe(st) && w in st.queues && x in st.queues[w]
    ensures x in st.sps && st.sps[x].ticket == OnQueue
  {
    hide ThreadsOk, SplicesOk, SocketsOk;
    var q := st.queues[w];
    assert QueueOk(st, w, q);
    var i :| 0 <= i < |q| && q[i] == x;
    assert Waiting(st, q[i], OnQueue);
  }

  // ---- Buffers ----

  lemma {:induction false} QuietAppend(st: State, t: Tid, so: SockId, n: nat)
    requires Safe(st) && CanAppend(st, t, so)
    ensures Quiet(st, DoAppend(st, t, so, n), t)
  {
    hide Moves, Safe, Quiet;
    QuietNext(st, DoAppend(st, t, so, n), t, DoAppend(st, t, so, n).thr[t]);
  }

  lemma {:induction false} QuietDrop(st: State, t: Tid, so: SockId, n: nat)
    requires Safe(st) && CanDrop(st, t, so)
    ensures Quiet(st, DoDrop(st, t, so, n), t)
  {
    hide Moves, Safe, Quiet;
    QuietNext(st, DoDrop(st, t, so, n), t, DoDrop(st, t, so, n).thr[t]);
  }

  lemma {:induction false} QuietWake(st: State, t: Tid)
    requires Safe(st) && CanWake(st, t)
    ensures Quiet(st, DoWake(st, t), t)
  {
    hide Moves, Safe, Quiet;
    QuietNext(st, DoWake(st, t), t, DoWake(st, t).thr[t]);
  }

  lemma {:induction false} QuietLockToDispatch(st: State, t: Tid)
    requires Safe(st) && CanLockToDispatch(st, t)
    ensures Quiet(st, DoLockToDispatch(st, t), t)
  {
    hide Moves, Safe, Quiet;
    var sp, st' := st.thr[t].sp, DoLockToDispatch(st, t);
    QuietNextSp(st, st', t, st'.thr[t], sp, st'.sps[sp]);
  }

  lemma {:induction false} QuietDispatch(st: State, t: Tid)
    requires Safe(st) && CanDispatch(st, t)
    ensures Quiet(st, DoDispatch(st, t), t)
  {
    hide Moves, Safe, Quiet;
    var sp, st' := st.thr[t].sp, DoDispatch(st, t);
    SpliceFacts(st, sp);
    PcFacts(st, t);
    QuietNextSp(st, st', t, st'.thr[t], sp, st'.sps[sp]);
  }

  lemma {:induction false} QuietEnqueue(st: State, t: Tid)
    requires Safe(st) && CanEnqueue(st, t)
    ensures Quiet(st, DoEnqueue(st, t), t)
  {
    hide Moves, Safe, Quiet;
    var sp, st' := st.thr[t].sp, DoEnqueue(st, t);
    PcFacts(st, t);
    QuietNextSp(st, st', t, st'.thr[t], sp, st'.sps[sp]);
  }

  // ---- The worker ----

  lemma {:induction false} QuietTakeQueue(st: State, t: Tid, w: nat)
    requires Safe(st) && CanTakeQueue(st, t, w)
    ensures Quiet(st, DoTakeQueue(st, t, w), t)
  {
    hide Moves, Safe;
    var q, st' := st.queues[w], DoTakeQueue(st, t, w);
    forall x | x in st.sps ensures QuietAt(st.sps[x], st'.sps[x], t) {
      if x in q { QueueFacts(st, w, x); }
    }
  }

  lemma {:induction false} QuietLockNext(st: State, t: Tid)
    requires Safe(st) && CanLockNext(st, t)
    ensures Quiet(st, DoLockNext(st, t), t)
  {
    hide Moves, Safe, Quiet;
    var st', sp := DoLockNext(st, t), st.thr[t].rest[0];
    QuietNextSp(st, st', t, st'.thr[t], sp, st'.sps[sp]);
  }

  lemma {:induction false} QuietCheckSpace(st: State, t: Tid)
    requires Safe(st) && CanCheckSpace(st, t)
    ensures Quiet(st, DoCheckSpace(st, t), t)
  {
    hide Moves, Safe, Quiet;
    var sp, st' := st.thr[t].sp, DoCheckSpace(st, t);
    PcFacts(st, t);
    QuietNextSp(st, st', t, st'.thr[t], sp, st'.sps[sp]);
  }

  lemma {:induction false} QuietSetIdle(st: State, t: Tid)
    requires Safe(st) && CanSetIdle(st, t)
    ensures Quiet(st, DoSetIdle(st, t), t)
  {
    hide Moves, Safe, Quiet;
    var sp, st' := st.thr[t].sp, DoSetIdle(st, t);
    PcFacts(st, t);
    QuietNextSp(st, st', t, st'.thr[t], sp, st'.sps[sp]);
  }

  // ---- Set-up and close ----

  lemma {:induction false} QuietPublishSrc(st: State, t: Tid, refuse: bool)
    requires Safe(st) && CanPublishSrc(st, t)
    ensures Quiet(st, DoPublishSrc(st, t, refuse), t)
  {
    hide Moves, Safe, Quiet;
    var sp, st' := st.thr[t].sp, DoPublishSrc(st, t, refuse);
    QuietNextSp(st, st', t, st'.thr[t], sp, st'.sps[sp]);
  }

  lemma {:induction false} QuietPublishDst(st: State, t: Tid, refuse: bool)
    requires Safe(st) && CanPublishDst(st, t)
    ensures Quiet(st, DoPublishDst(st, t, refuse), t)
  {
    hide Moves, Safe, Quiet;
    var sp, st' := st.thr[t].sp, DoPublishDst(st, t, refuse);
    assert st.sps[sp := st.sps[sp]] == st.sps;
    QuietNextSp(st, st', t, st'.thr[t], sp, st'.sps[sp]);
  }

  lemma {:induction false} QuietFailSetup(st: State, t: Tid)
    requires Safe(st) && CanFailSetup(st, t)
    ensures Quiet(st, DoFailSetup(st, t), t)
  {
    hide Moves, Safe, Quiet;
    var sp, st' := st.thr[t].sp, DoFailSetup(st, t);
    QuietNextSp(st, st', t, st'.thr[t], sp, st'.sps[sp]);
  }

  lemma {:induction false} QuietFirstXfer(st: State, t: Tid)
    requires Safe(st) && CanFirstXfer(st, t)
    ensures Quiet(st, DoFirstXfer(st, t), t)
  {
    hide Moves, Safe, Quiet;
    var sp, st' := st.thr[t].sp, DoFirstXfer(st, t);
    PcFacts(st, t);
    SpliceFacts(st, sp);
    assert st.thr[t := st.thr[t]] == st.thr && st.sps[sp := st.sps[sp]] == st.sps;
    QuietNextSp(st, st', t, st'.thr[t], sp, st'.sps[sp]);
  }

  lemma {:induction false} QuietCallUnsplice(st: State, t: Tid, so: SockId)
    requires Safe(st) && CanCallUnsplice(st, t, so)
    ensures Quiet(st, DoCallUnsplice(st, t, so), t)
  {
    hide Moves, Safe, Quiet;
    QuietNext(st, DoCallUnsplice(st, t, so), t, DoCallUnsplice(st, t, so).thr[t]);
  }

  lemma {:induction false} QuietHide(st: State, t: Tid)
    requires Safe(st) && CanHide(st, t)
    ensures Quiet(st, DoHide(st, t), t)
  {
    hide Moves, Safe, Quiet;
    var k, st' := st.socks[st.thr[t].so].splice, DoHide(st, t);
    if k == None || st.sps[k.value].state == Init {
      QuietNext(st, st', t, st'.thr[t]);
    } else {
      QuietNextSp(st, st', t, st'.thr[t], k.value, st'.sps[k.value]);
    }
  }

  lemma {:induction false} QuietDetachDst(st: State, t: Tid)
    requires Safe(st) && CanDetachDst(st, t)
    ensures Quiet(st, DoDetachDst(st, t), t)
  {
    hide Moves, Safe, Quiet;
    var sp, st' := st.thr[t].sp, DoDetachDst(st, t);
    assert st.thr[t := st.thr[t]] == st.thr && st.sps[sp := st.sps[sp]] == st.sps;
    QuietNextSp(st, st', t, st'.thr[t], sp, st'.sps[sp]);
  }

  lemma {:induction false} QuietSwitchState(st: State, t: Tid)
    requires Safe(st) && CanSwitchState(st, t)
    ensures Quiet(st, DoSwitchState(st, t), t)
  {
    hide Moves, Safe, Quiet;
    var sp, st' := st.thr[t].sp, DoSwitchState(st, t);
    assert st.thr[t := st.thr[t]] == st.thr && st.sps[sp := st.sps[sp]] == st.sps;
    QuietNextSp(st, st', t, st'.thr[t], sp, st'.sps[sp]);
  }

  lemma {:induction false} QuietWait(st: State, t: Tid)
    requires Safe(st) && CanWait(st, t)
    ensures Quiet(st, DoWait(st, t), t)
  {
    hide Moves, Safe, Quiet;
    QuietNext(st, DoWait(st, t), t, DoWait(st, t).thr[t]);
  }

  lemma {:induction false} QuietDropSrc(st: State, t: Tid)
    requires Safe(st) && CanDropSrc(st, t)
    ensures Quiet(st, DoDropSrc(st, t), t)
  {
    hide Moves, Safe, Quiet;
    var sp, st' := st.thr[t].sp, DoDropSrc(st, t);
    QuietNextSp(st, st', t, st'.thr[t], sp, st'.sps[sp]);
  }

  lemma {:induction false} QuietDropDst(st: State, t: Tid)
    requires Safe(st) && CanDropDst(st, t)
    ensures Quiet(st, DoDropDst(st, t), t)
  {
    hide Moves, Safe, Quiet;
    var sp, st' := st.thr[t].sp, DoDropDst(st, t);
    QuietNextSp(st, st', t, st'.thr[t], sp, st'.sps[sp]);
  }

  lemma {:induction false} QuietFree(st: State, t: Tid)
    requires Safe(st) && CanFree(st, t)
    ensures Quiet(st, DoFree(st, t), t)
  {
    hide Moves, Safe, Quiet;
    var sp, st' := st.thr[t].sp, DoFree(st, t);
    assert st.thr[t := st.thr[t]] == st.thr && st.sps[sp := st.sps[sp]] == st.sps;
    QuietNextSp(st, st', t, st'.thr[t], sp, st'.sps[sp]);
  }

  // ---- The steps the ledger takes part in ----

  /** A step of t that has to do with sp only, before and after. */
  ghost predicate About(st: State, st': State, t: Tid, sp: SpId) {
    && t in st.thr && t in st'.thr && AboutPc(st.thr[t], sp) && AboutPc(st'.thr[t], sp)
    && (forall u :: u in st.thr && u != t ==> u in st'.thr && st'.thr[u] == st.thr[u])
    && (forall u :: u in st'.thr ==> u in st.thr)
    && (forall x :: x in st.sps && x != sp ==> x in st'.sps && st'.sps[x] == st.sps[x])
    && (forall x :: x in st'.sps && x != sp ==> x in st.sps)
  }

  ghost predicate AboutPc(pc: Pc, sp: SpId) {
    (pc.Moving? ==> pc.sp == sp) && (pc.Moved? ==> pc.sp == sp) && (pc.Deciding? ==> pc.sp == sp)
  }

  lemma {:induction false} AboutStage(st: State, st': State, t: Tid, sp: SpId, x: SpId)
    requires About(st, st', t, sp) && x in st.sps && x != sp
    ensures x in st'.sps && st'.sps[x] == st.sps[x] && StageOf(st', x) == StageOf(st, x)
    ensures StageOf(st, x) != Loading(t) && StageOf(st, x) != Unloading(t)
  {
  }

  /** The ledger changes for t and sp only, or a count goes up. */
  ghost predicate OnlyFor(l: Ledger, l': Ledger, t: Tid, sp: SpId) {
    && l'.limit == l.limit && l'.resets == l.resets
    && (forall x :: x != sp ==> Get(l'.since, x) == Get(l.since, x) && Get(l'.moved, x) == Get(l.moved, x))
    && (forall u :: u != t ==> RoomOf(l', u) == RoomOf(l, u) && Get(l'.len, u) == Get(l.len, u))
    && (forall o :: Get(l.sent, o) <= Get(l'.sent, o))
  }

  lemma {:induction false} OthersKeep(st: State, st': State, t: Tid, sp: SpId, l: Ledger, l': Ledger, x: SpId)
    requires LimitInv(st, l) && About(st, st', t, sp) && OnlyFor(l, l', t, sp) && x in st.sps && x != sp
    ensures x in st'.sps && SpLimit(st', l', x)
  {
    assert SpLimit(st, l, x);
    AboutStage(st, st', t, sp, x);
    hide About, StageOf, Ended, LimitInv;
  }

  lemma {:induction false} StepKeeps(st: State, st': State, t: Tid, sp: SpId, l: Ledger, l': Ledger)
    requires LimitInv(st, l) && About(st, st', t, sp) && OnlyFor(l, l', t, sp)
    requires (sp in st'.sps ==> SpLimit(st', l', sp))
    ensures LimitInv(st', l')
  {
    hide SpLimit, OnlyFor, AboutPc;
    forall x | x in st'.sps ensures SpLimit(st', l', x) {
      if x != sp { OthersKeep(st, st', t, sp, l, l', x); }
    }
  }

  lemma {:induction false} LimitAt(st: State, l: Ledger, sp: SpId)
    requires LimitInv(st, l) && sp in st.sps
    ensures SpLimit(st, l, sp)
  {
    hide SpLimit;
  }

  lemma {:induction false} BeginStage(st: State, t: Tid)
    requires Safe(st) && CanBeginXfer(st, t)
    ensures var sp, st' := st.thr[t].sp, DoBeginXfer(st, t);
            && About(st, st', t, sp) && sp in st'.sps && st'.sps[sp].src == st.sps[sp].src && StageOf(st, sp) == Rest
            && !Ended(st.sps[sp])
            && (StageOf(st', sp) == Loading(t) || (StageOf(st', sp) == Rest && Ended(st'.sps[sp])))
  {
    hide Moves, Safe;
    PcFacts(st, t);
    SpliceFacts(st, st.thr[t].sp);
  }

  lemma {:induction false} BeginLimit(st: State, t: Tid, l: Ledger, l': Ledger)
    requires Safe(st) && LimitInv(st, l) && CanBeginXfer(st, t)
    requires l' == l.(room := l.room[t := Allowance(l, st.thr[t].sp, st.sps[st.thr[t].sp].src)])
    ensures LimitInv(DoBeginXfer(st, t), l')
  {
    hide Moves, Safe, LimitInv, DoBeginXfer, About, StageOf, Ended;
    var sp, st' := st.thr[t].sp, DoBeginXfer(st, t);
    BeginStage(st, t);
    LimitAt(st, l, sp);
    SameWithin(l, l', sp);
    hide Within;
    StepKeeps(st, st', t, sp, l, l');
  }

  lemma {:induction false} MoveStage(st: State, t: Tid, n: nat, m: nat, stop: bool)
    requires Safe(st) && CanMove(st, t, n, m)
    ensures var sp, st' := st.thr[t].sp, DoMove(st, t, n, m, stop);
            && About(st, st', t, sp) && sp in st'.sps && st'.sps[sp].src == st.sps[sp].src
            && StageOf(st, sp) == Loading(t)
            && StageOf(st', sp) == if stop then Failed else Unloading(t)
  {
    hide Moves, Safe;
    PcFacts(st, t);
  }

  lemma {:induction false} MoveLimit(st: State, t: Tid, n: nat, m: nat, stop: bool, l: Ledger, l': Ledger)
    requires Safe(st) && LimitInv(st, l) && CanMove(st, t, n, m) && (RoomOf(l, t).Some? ==> n <= RoomOf(l, t).value)
    requires var sp := st.thr[t].sp;
             l' == l.(len := l.len[t := n], moved := l.moved[sp := Get(l.moved, sp) + n],
                      since := l.since[sp := Get(l.since, sp) + n])
    ensures LimitInv(DoMove(st, t, n, m, stop), l')
  {
    hide Moves, Safe, LimitInv, DoMove, About, StageOf, Ended;
    var sp, st' := st.thr[t].sp, DoMove(st, t, n, m, stop);
    MoveStage(st, t, n, m, stop);
    LimitAt(st, l, sp);
    StepKeeps(st, st', t, sp, l, l');
  }

  lemma {:induction false} RelockStage(st: State, t: Tid)
    requires Safe(st) && CanRelock(st, t)
    ensures var sp, st' := st.thr[t].sp, DoRelock(st, t);
            && About(st, st', t, sp) && sp in st.sps && sp in st'.sps && st'.sps[sp].src == st.sps[sp].src
            && StageOf(st, sp) == (if st.thr[t].stop then Failed else Unloading(t))
            && StageOf(st', sp) == if st.thr[t].stop then Failed else Rest
  {
    hide Moves, Safe;
    PcFacts(st, t);
  }

  lemma {:induction false} RelockLimit(st: State, t: Tid, l: Ledger, l': Ledger)
    requires Safe(st) && LimitInv(st, l) && CanRelock(st, t)
    requires var src := st.sps[st.thr[t].sp].src;
             l' == if st.thr[t].stop then l else l.(sent := l.sent[src := Get(l.sent, src) + Get(l.len, t)])
    ensures LimitInv(DoRelock(st, t), l')
  {
    hide Moves, Safe, LimitInv, DoRelock, About, StageOf, Ended;
    var sp, st' := st.thr[t].sp, DoRelock(st, t);
    RelockStage(st, t);
    LimitAt(st, l, sp);
    SameWithin(l, l', sp);
    hide Within;
    StepKeeps(st, st', t, sp, l, l');
  }

  lemma {:induction false} SameWithin(l: Ledger, l': Ledger, x: SpId)
    requires l'.limit == l.limit && l'.since == l.since && l'.moved == l.moved && l'.resets == l.resets
    ensures Within(l', x) == Within(l, x)
  {
  }

  lemma {:induction false} DecideStage(st: State, t: Tid, full: bool)
    requires Safe(st) && CanDecide(st, t)
    ensures var sp, st' := st.thr[t].sp, DoDecide(st, t, full);
            && About(st, st', t, sp) && sp in st'.sps && st'.sps[sp].src == st.sps[sp].src
            && StageOf(st, sp) == (if st.thr[t].stop then Failed else Rest)
            && StageOf(st', sp) == Rest && (Ended(st'.sps[sp]) || (!st.thr[t].stop && !Ended(st.sps[sp])))
  {
    hide Moves, Safe;
    PcFacts(st, t);
    SpliceFacts(st, st.thr[t].sp);
  }

  lemma {:induction false} DecideLimit(st: State, t: Tid, full: bool, l: Ledger)
    requires Safe(st) && LimitInv(st, l) && CanDecide(st, t)
    ensures LimitInv(DoDecide(st, t, full), l)
  {
    hide Moves, Safe, LimitInv, DoDecide, About, StageOf, Ended, Within;
    var sp, st' := st.thr[t].sp, DoDecide(st, t, full);
    DecideStage(st, t, full);
    LimitAt(st, l, sp);
    StepKeeps(st, st', t, sp, l, l);
  }

  /** A call of so_splice: every splice of that source starts over, with what it has moved so far. */
  lemma {:induction false} AllocLimit(st: State, t: Tid, sp: SpId, src: SockId, dst: SockId, w: nat, max: nat,
                                      l: Ledger)
    requires Safe(st) && LimitInv(st, l) && CanAlloc(st, t, sp, src, dst, w)
    ensures LimitInv(DoAlloc(st, t, sp, src, dst, w), Reset(st, l, sp, src, max))
  {
    hide Moves, Safe, LimitInv, SpLimit, Reset;
    var st', l' := DoAlloc(st, t, sp, src, dst, w), Reset(st, l, sp, src, max);
    assert About(st, st', t, sp);
    forall x | x in st'.sps ensures SpLimit(st', l', x) {
      if x == sp {
        NewLimit(st, st', l, sp, src, max);
      } else {
        SpliceFacts(st, x);
        ResetLimit(st, st', t, l, sp, src, max, x);
      }
    }
    FromAll(st', l');
  }

  lemma {:induction false} FromAll(st: State, l: Ledger)
    requires forall x :: x in st.sps ==> SpLimit(st, l, x)
    ensures LimitInv(st, l)
  {
    hide SpLimit;
  }

  lemma {:induction false} NewLimit(st: State, st': State, l: Ledger, sp: SpId, src: SockId, max: nat)
    requires sp in st'.sps && st'.sps[sp].ticket == NoTicket
    ensures SpLimit(st', Reset(st, l, sp, src, max), sp)
  {
  }

  lemma {:induction false} ResetLimit(st: State, st': State, t: Tid, l: Ledger, sp: SpId, src: SockId, max: nat,
                                      x: SpId)
    requires LimitInv(st, l) && About(st, st', t, sp) && x in st.sps && x != sp
    requires st.sps[x].frees > 0 ==> st.sps[x].ticket == NoTicket
    ensures x in st'.sps && SpLimit(st', Reset(st, l, sp, src, max), x)
  {
    hide Reset, LimitInv;
    LimitAt(st, l, x);
    AboutStage(st, st', t, sp, x);
    ResetAt(st, l, sp, src, max, x);
    assert st.sps[x].frees > 0 ==> StageOf(st, x) == Rest;
    hide About, StageOf;
    ResetWithin(Get(l.limit, x), Get(l.resets, x));
  }

  lemma {:induction false} ResetWithin(k: nat, r: nat)
    ensures k * (r + 1) == k * r + k
  {
  }

  lemma {:induction false} ResetAt(st: State, l: Ledger, sp: SpId, src: SockId, max: nat, x: SpId)
    requires x in st.sps && x != sp
    ensures var l' := Reset(st, l, sp, src, max); var hit := Counted(st.sps[x], src);
            && Get(l'.limit, x) == Get(l.limit, x) && Get(l'.moved, x) == Get(l.moved, x)
            && Get(l'.since, x) == (if hit then 0 else Get(l.since, x))
            && Get(l'.resets, x) == Get(l.resets, x) + (if hit then 1 else 0)
            && Get(l'.sent, st.sps[x].src) == (if st.sps[x].src == src then 0 else Get(l.sent, st.sps[x].src))
            && l'.room == l.room && l'.len == l.len
  {
  }

  // ---- Every step ----

  lemma {:induction false} BufferLimit(st: State, b: BufferStep, l: Ledger)
    requires Safe(st) && LimitInv(st, l) && BufferEnabled(st, b)
    ensures LimitInv(ApplyBuffer(st, b), l)
  {
    hide Safe, LimitInv, Moves, Quiet, CanAppend, CanDrop, CanWake, CanLockToDispatch, CanDispatch, CanEnqueue,
         DoAppend, DoDrop, DoWake, DoLockToDispatch, DoDispatch, DoEnqueue;
    match b {
      case Append(t, so, n) => QuietAppend(st, t, so, n);
      case Drop(t, so, n) => QuietDrop(st, t, so, n);
      case Wake(t) => QuietWake(st, t);
      case LockToDispatch(t) => QuietLockToDispatch(st, t);
      case Dispatch(t) => QuietDispatch(st, t);
      case Enqueue(t) => QuietEnqueue(st, t);
    }
    QuietKeeps(st, ApplyBuffer(st, b), b.t, l);
  }

  lemma {:induction false} CloseLimit(st: State, c: CloseStep, l: Ledger)
    requires Safe(st) && LimitInv(st, l) && CloseEnabled(st, c)
    ensures LimitInv(ApplyClose(st, c), l)
  {
    hide Safe, LimitInv, Moves, Quiet, CanCallUnsplice, CanHide, CanDetachDst, CanSwitchState, CanWait, CanDropSrc,
         CanDropDst, CanFree, DoCallUnsplice, DoHide, DoDetachDst, DoSwitchState, DoWait, DoDropSrc, DoDropDst, DoFree;
    match c {
      case CallUnsplice(t, so) => QuietCallUnsplice(st, t, so);
      case Hide(t) => QuietHide(st, t);
      case DetachDst(t) => QuietDetachDst(st, t);
      case SwitchState(t) => QuietSwitchState(st, t);
      case Wait(t) => QuietWait(st, t);
      case DropSrc(t) => QuietDropSrc(st, t);
      case DropDst(t) => QuietDropDst(st, t);
      case Free(t) => QuietFree(st, t);
    }
    QuietKeeps(st, ApplyClose(st, c), c.t, l);
  }

  lemma {:induction false} SetupLimit(st: State, u: SetupStep, l: Ledger, max: nat)
    requires Safe(st) && LimitInv(st, l) && SetupEnabled(st, u)
    ensures LimitInv(ApplySetup(st, u), if u.Alloc? then Reset(st, l, u.sp, u.src, max) else l)
  {
    hide Safe, LimitInv, Moves, Quiet, Reset, CanAlloc, CanPublishSrc, CanPublishDst, CanFailSetup, CanFirstXfer,
         DoAlloc, DoPublishSrc, DoPublishDst, DoFailSetup, DoFirstXfer;
    match u {
      case Alloc(t, sp, src, dst, w) => AllocLimit(st, t, sp, src, dst, w, max, l); return;
      case PublishSrc(t, refuse) => QuietPublishSrc(st, t, refuse);
      case PublishDst(t, refuse) => QuietPublishDst(st, t, refuse);
      case FailSetup(t) => QuietFailSetup(st, t);
      case FirstXfer(t) => QuietFirstXfer(st, t);
    }
    QuietKeeps(st, ApplySetup(st, u), u.t, l);
  }

  lemma {:induction false} TransferLimit(st: State, x: XferStep, l: Ledger, max: nat)
    requires Safe(st) && LimitInv(st, l) && TransferEnabled(st, x) && Allowed(st, l, Transfer(x))
    ensures LimitInv(ApplyTransfer(st, x), Noted(st, l, Transfer(x), max))
  {
    hide Safe, LimitInv, Moves, Quiet, CanTakeQueue, CanLockNext, CanBeginXfer, CanMove, CanRelock, CanDecide,
         CanCheckSpace, CanSetIdle,
         DoTakeQueue, DoLockNext, DoBeginXfer, DoMove, DoRelock, DoDecide, DoCheckSpace, DoSetIdle, Allowance;
    var l' := Noted(st, l, Transfer(x), max);
    match x {
      case BeginXfer(t) => BeginLimit(st, t, l, l'); return;
      case Move(t, n, m, stop) => MoveLimit(st, t, n, m, stop, l, l'); return;
      case Relock(t) => RelockLimit(st, t, l, l'); return;
      case Decide(t, full) => DecideLimit(st, t, full, l); return;
      case TakeQueue(t, w) => QuietTakeQueue(st, t, w);
      case LockNext(t) => QuietLockNext(st, t);
      case CheckSpace(t) => QuietCheckSpace(st, t);
      case SetIdle(t) => QuietSetIdle(st, t);
    }
    QuietKeeps(st, ApplyTransfer(st, x), x.t, l);
  }

  lemma {:induction false} LimitStep(st: State, e: Step, l: Ledger, max: nat)
    requires Safe(st) && LimitInv(st, l) && Enabled(st, e) && Allowed(st, l, e)
    ensures LimitInv(Apply(st, e), Noted(st, l, e, max))
  {
    hide Safe, LimitInv, Moves, Reset, BufferEnabled, TransferEnabled, SetupEnabled, CloseEnabled, ApplyBuffer,
         ApplyTransfer, ApplySetup, ApplyClose;
    match e
    case Buffer(b) => BufferLimit(st, b, l);
    case Transfer(x) => TransferLimit(st, x, l, max);
    case Setup(u) => SetupLimit(st, u, l, max);
    case Close(c) => CloseLimit(st, c, l);
  }

  lemma {:induction false} LimitRun(run: seq<State>, steps: seq<Step>, ledgers: seq<Ledger>, maxes: seq<nat>, i: nat)
    requires LimitedRun(run, steps, ledgers, maxes) && i < |run|
    ensures LimitInv(run[i], ledgers[i])
  {
    hide Safe, Enabled, Apply, Allowed, Noted, SpLimit;
    if i > 0 {
      LimitRun(run, steps, ledgers, maxes, i - 1);
      SafeRun(run, steps, i - 1);
      hide Initial, LimitInv;
      LimitStep(run[i - 1], steps[i - 1], ledgers[i - 1], maxes[i - 1]);
      assert run[i - 1 + 1] == Apply(run[i - 1], steps[i - 1]);
      assert ledgers[i - 1 + 1] == Noted(run[i - 1], ledgers[i - 1], steps[i - 1], maxes[i - 1]);
    }
  }

  /** In every run, a splice with a limit has moved at most that, times one more than the number of
      so_splice calls made on its source since its own; so at most its limit if there was none. */
  lemma {:induction false} LimitBound(run: seq<State>, steps: seq<Step>, ledgers: seq<Ledger>, maxes: seq<nat>, i: nat,
                                      sp: SpId)
    requires LimitedRun(run, steps, ledgers, maxes) && i < |run| && sp in run[i].sps && Get(ledgers[i].limit, sp) > 0
    ensures Get(ledgers[i].moved, sp) <= Get(ledgers[i].limit, sp) * (Get(ledgers[i].resets, sp) + 1)
    ensures Get(ledgers[i].resets, sp) == 0 ==> Get(ledgers[i].moved, sp) <= Get(ledgers[i].limit, sp)
  {
    hide Enabled, Apply, Allowed, Noted, LimitInv, Initial;
    LimitRun(run, steps, ledgers, maxes, i);
    LimitAt(run[i], ledgers[i], sp);
    hide Covered;
    ResetWithin(Get(ledgers[i].limit, sp), Get(ledgers[i].resets, sp));
  }

  /** No so_splice call on the splice's source came while the splice was there, its own aside. */
  ghost predicate Undisturbed(run: seq<State>, steps: seq<Step>, sp: SpId, i: nat)
    requires IsRun(run, steps) && i < |run|
  {
    forall j :: 0 <= j < i && steps[j].Setup? && steps[j].u.Alloc? && steps[j].u.sp != sp && sp in run[j].sps ==>
      !Counted(run[j].sps[sp], steps[j].u.src)
  }

  lemma {:induction false} NoReset(st: State, l: Ledger, e: Step, max: nat, sp: SpId)
    requires Enabled(st, e) && Get(l.resets, sp) == 0
    requires e.Setup? && e.u.Alloc? && e.u.sp != sp && sp in st.sps ==> !Counted(st.sps[sp], e.u.src)
    ensures Get(Noted(st, l, e, max).resets, sp) == 0
  {
    hide Enabled, Counted, Allowance;
  }

  lemma {:induction false} NoResets(run: seq<State>, steps: seq<Step>, ledgers: seq<Ledger>, maxes: seq<nat>, i: nat,
                                    sp: SpId)
    requires LimitedRun(run, steps, ledgers, maxes) && i < |run| && Undisturbed(run, steps, sp, i)
    ensures Get(ledgers[i].resets, sp) == 0
  {
    if i > 0 {
      hide Enabled, Apply, Allowed, Initial, Counted, Noted, Get;
      NoResets(run, steps, ledgers, maxes, i - 1, sp);
      assert ledgers[i - 1 + 1] == Noted(run[i - 1], ledgers[i - 1], steps[i - 1], maxes[i - 1]);
      NoReset(run[i - 1], ledgers[i - 1], steps[i - 1], maxes[i - 1], sp);
    }
  }

  /** A splice that is left alone moves at most its limit. */
  lemma {:induction false} LimitKept(run: seq<State>, steps: seq<Step>, ledgers: seq<Ledger>, maxes: seq<nat>, i: nat,
                                     sp: SpId)
    requires LimitedRun(run, steps, ledgers, maxes) && i < |run| && sp in run[i].sps && Get(ledgers[i].limit, sp) > 0
    requires Undisturbed(run, steps, sp, i)
    ensures Get(ledgers[i].moved, sp) <= Get(ledgers[i].limit, sp)
  {
    hide Enabled, Apply, Allowed, Noted, Initial, Undisturbed;
    NoResets(run, steps, ledgers, maxes, i, sp);
    LimitBound(run, steps, ledgers, maxes, i, sp);
  }
}
