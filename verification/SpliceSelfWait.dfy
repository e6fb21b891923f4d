/** A worker that unsplices a source can find a newer splice of that source on its own private
    list, and then waits for itself. Such a wait never ends, and it comes about exactly when
    so_unsplice is entered with the source's splice on the caller's own list; that never happens
    where a source is spliced again only after its earlier splice has been freed. */
module SpliceSelfWait {
  import opened Basics
  import opened SpliceMachine
  import opened SpliceInvariant
  import opened SpliceFrame
  import opened SpliceSteps

  /** Thread t waits for splice sp to close, and is itself the one who must close it. */
  ghost predicate SelfWait(st: State, t: Tid, sp: SpId) {
    && t in st.thr && st.thr[t].UnspWait? && st.thr[t].sp == sp && sp in st.thr[t].rest
    && sp in st.sps && st.sps[sp].state == Closing
  }

  /** Once a thread waits for itself, no step of any thread ends the wait. */
  lemma SelfWaitForever(st: State, e: Step, t: Tid, sp: SpId)
    requires Safe(st) && SelfWait(st, t, sp) && Enabled(st, e)
    ensures SelfWait(Apply(st, e), t, sp)
  {
    hide Enabled, Apply, ThreadsOk, SplicesOk, SocketsOk, QueuesOk;
    SafeStep(st, e);
    var st' := Apply(st, e);
    assert Moves(st, st', e.Thread());
    PcAt(st', t);
    var rest := st.thr[t].rest;
    var i :| 0 <= i < |rest| && rest[i] == sp;
    assert Waiting(st', rest[i], With(t));
  }

  // ---- Exactly when it happens ----

  /** Thread t is taking down a splice that is on its own list. */
  ghost predicate Doomed(st: State, t: Tid, sp: SpId) {
    && t in st.thr && (st.thr[t].UnspDst? || st.thr[t].UnspState? || st.thr[t].UnspWait?)
    && st.thr[t].sp == sp && sp in st.thr[t].rest
  }

  /** A splice on a thread's list waits for that thread. */
  lemma {:induction false} OnOwnList(st: State, t: Tid, sp: SpId)
    requires Safe(st) && t in st.thr && sp in RestOf(st.thr[t])
    ensures Waiting(st, sp, With(t))
  {
    hide ThreadsOk, SplicesOk, SocketsOk, QueuesOk, PcMain, RestOf;
    PcAt(st, t);
    var rest := RestOf(st.thr[t]);
    var i :| 0 <= i < |rest| && rest[i] == sp;
    assert Waiting(st, rest[i], With(t));
  }

  /** What a doomed thread finds the splice in. */
  lemma {:induction false} DoomedFinds(st: State, t: Tid, sp: SpId)
    requires Safe(st) && Doomed(st, t, sp)
    ensures sp in st.sps && (st.thr[t].UnspState? ==> st.sps[sp].state == Queued)
    ensures (st.thr[t].UnspWait? ==> st.sps[sp].state == Closing)
  {
    hide Safe;
    OnOwnList(st, t, sp);
    CloserAt(st, t);
  }

  lemma {:induction false} CloserAt(st: State, t: Tid)
    requires Safe(st) && t in st.thr
    ensures PcMain(st, t, st.thr[t])
  {
    hide ThreadsOk, SplicesOk, SocketsOk, QueuesOk, PcMain, RestOk;
    PcAt(st, t);
  }

  /** so_unsplice sets out to wait for its own caller exactly when the source's splice is on the
      caller's list. */
  lemma {:induction false} HideDooms(st: State, t: Tid, sp: SpId)
    requires Safe(st) && CanHide(st, t) && st.socks[st.thr[t].so].splice == Some(sp)
    ensures Doomed(DoHide(st, t), t, sp) <==> sp in st.thr[t].rest
  {
    hide Safe, Moves;
    if sp in st.thr[t].rest { OnOwnList(st, t, sp); }
  }

  lemma {:induction false} DoomedDetach(st: State, t: Tid, sp: SpId)
    requires CanDetachDst(st, t) && Doomed(st, t, sp)
    ensures Doomed(DoDetachDst(st, t), t, sp)
  {
    hide Moves;
  }

  /** From there the next look at the state starts the wait. */
  lemma {:induction false} DoomedSwitch(st: State, t: Tid, sp: SpId)
    requires Safe(st) && CanSwitchState(st, t) && Doomed(st, t, sp)
    ensures SelfWait(DoSwitchState(st, t), t, sp)
  {
    hide Safe, Moves;
    DoomedFinds(st, t, sp);
  }

  lemma {:induction false} DoomedWait(st: State, t: Tid, sp: SpId)
    requires Safe(st) && CanWait(st, t) && Doomed(st, t, sp)
    ensures DoWait(st, t) == st && SelfWait(st, t, sp)
  {
    hide Safe, Moves;
    DoomedFinds(st, t, sp);
    assert st.thr[t := st.thr[t]] == st.thr;
  }

  /** The only step of a thread at these places. */
  ghost predicate OwnStep(pc: Pc, e: Step) {
    match pc
    case Unsplice(_, _) => e.Close? && e.c.Hide?
    case UnspDst(_, _) => e.Close? && e.c.DetachDst?
    case UnspState(_, _) => e.Close? && e.c.SwitchState?
    case UnspWait(_, _) => e.Close? && e.c.Wait?
    case _ => true
  }

  lemma {:induction false} OnlyStep(st: State, e: Step, t: Tid)
    requires Enabled(st, e) && e.Thread() == t && t in st.thr
    ensures OwnStep(st.thr[t], e)
  {
    hide Unlocked, RcvFree, SndFree;
    match e
    case Buffer(b) => OnlyBuffer(st, b);
    case Transfer(x) => OnlyTransfer(st, x);
    case Setup(u) => OnlySetup(st, u);
    case Close(c) => OnlyClose(st, c);
  }

  lemma {:induction false} OnlyBuffer(st: State, b: BufferStep)
    requires BufferEnabled(st, b) && b.t in st.thr
    ensures OwnStep(st.thr[b.t], Buffer(b))
  {
    hide Unlocked, RcvFree, SndFree;
  }

  lemma {:induction false} OnlyTransfer(st: State, x: XferStep)
    requires TransferEnabled(st, x) && x.t in st.thr
    ensures OwnStep(st.thr[x.t], Transfer(x))
  {
    hide Unlocked, RcvFree, SndFree;
  }

  lemma {:induction false} OnlySetup(st: State, u: SetupStep)
    requires SetupEnabled(st, u) && u.t in st.thr
    ensures OwnStep(st.thr[u.t], Setup(u))
  {
    hide Unlocked, RcvFree, SndFree;
  }

  lemma {:induction false} OnlyClose(st: State, c: CloseStep)
    requires CloseEnabled(st, c) && c.t in st.thr
    ensures OwnStep(st.thr[c.t], Close(c))
  {
    hide Unlocked, RcvFree, SndFree;
  }

  /** No step of any thread gets it out of there. */
  lemma {:induction false} DoomedForever(st: State, e: Step, t: Tid, sp: SpId)
    requires Safe(st) && Enabled(st, e) && Doomed(st, t, sp)
    ensures Doomed(Apply(st, e), t, sp)
  {
    hide Safe, Enabled, Apply;
    if e.Thread() != t {
      assert Moves(st, Apply(st, e), e.Thread());
    } else {
      DoomedOwn(st, e, t, sp);
    }
  }

  lemma {:induction false} DoomedOwn(st: State, e: Step, t: Tid, sp: SpId)
    requires Safe(st) && Enabled(st, e) && e.Thread() == t && Doomed(st, t, sp)
    ensures Doomed(Apply(st, e), t, sp)
  {
    hide Safe, Moves, Enabled, Apply, CloseEnabled, ApplyClose, OwnStep;
    OnlyStep(st, e, t);
    CloseOwn(st, e, t, sp);
  }

  lemma {:induction false} CloseOwn(st: State, e: Step, t: Tid, sp: SpId)
    requires Safe(st) && Enabled(st, e) && e.Thread() == t && Doomed(st, t, sp) && OwnStep(st.thr[t], e)
    ensures Doomed(Apply(st, e), t, sp)
  {
    hide Safe, Moves, BufferEnabled, TransferEnabled, SetupEnabled, ApplyBuffer, ApplyTransfer, ApplySetup,
         CanCallUnsplice, CanHide, CanDetachDst, CanSwitchState, CanWait, CanDropSrc, CanDropDst, CanFree,
         DoCallUnsplice, DoHide, DoDetachDst, DoSwitchState, DoWait, DoDropSrc, DoDropDst, DoFree;
    match e.c
    case DetachDst(_) => DoomedDetach(st, t, sp);
    case SwitchState(_) => DoomedSwitch(st, t, sp);
    case Wait(_) => DoomedWait(st, t, sp);
    case _ =>
  }

  /** The step e enters so_unsplice with the source's splice sp on the caller's own list. */
  ghost predicate HidesOwn(st: State, e: Step, t: Tid, sp: SpId) {
    && e == Close(Hide(t)) && t in st.thr && st.thr[t].Unsplice? && st.thr[t].so in st.socks
    && st.socks[st.thr[t].so].splice == Some(sp) && sp in st.thr[t].rest
  }

  lemma {:induction false} DoomedBy(st: State, e: Step, t: Tid, sp: SpId)
    requires Enabled(st, e) && !Doomed(st, t, sp) && Doomed(Apply(st, e), t, sp)
    ensures HidesOwn(st, e, t, sp)
  {
    hide Enabled, Apply;
    assert Moves(st, Apply(st, e), e.Thread());
    if e.Thread() == t { OnlyStep(st, e, t); }
  }

  lemma {:induction false} HidesOwnDooms(st: State, e: Step, t: Tid, sp: SpId)
    requires Safe(st) && Enabled(st, e) && HidesOwn(st, e, t, sp)
    ensures Doomed(Apply(st, e), t, sp)
  {
    hide Safe, Moves, CanHide, DoHide, Doomed;
    HideDooms(st, t, sp);
  }

  /** In every run, a thread is on its way to waiting for itself, or waiting, exactly when it has
      entered so_unsplice with the source's splice on its own list; and it stays there. */
  lemma {:induction false} SelfWaitExactly(run: seq<State>, steps: seq<Step>, i: nat, t: Tid, sp: SpId)
    requires IsRun(run, steps) && i < |run|
    ensures Doomed(run[i], t, sp) <==> exists j :: 0 <= j < i && HidesOwn(run[j], steps[j], t, sp)
  {
    hide Safe, Enabled, Apply, Doomed, HidesOwn, Moves;
    if i == 0 {
      StartsFree(run[0], t, sp);
    } else {
      SelfWaitExactly(run, steps, i - 1, t, sp);
      SafeRun(run, steps, i - 1);
      hide Initial;
      assert run[i - 1 + 1] == Apply(run[i - 1], steps[i - 1]);
      DoomedStep(run[i - 1], steps[i - 1], t, sp);
    }
  }

  lemma {:induction false} StartsFree(st: State, t: Tid, sp: SpId)
    requires Initial(st)
    ensures !Doomed(st, t, sp)
  {
  }

  lemma {:induction false} DoomedStep(st: State, e: Step, t: Tid, sp: SpId)
    requires Safe(st) && Enabled(st, e)
    ensures Doomed(Apply(st, e), t, sp) <==> Doomed(st, t, sp) || HidesOwn(st, e, t, sp)
  {
    hide Safe, Enabled, Apply, Doomed, HidesOwn, Moves;
    if Doomed(st, t, sp) { DoomedForever(st, e, t, sp); }
    else if Doomed(Apply(st, e), t, sp) { DoomedBy(st, e, t, sp); }
    else if HidesOwn(st, e, t, sp) { HidesOwnDooms(st, e, t, sp); }
  }

  // ---- When it cannot happen ----

  /** No earlier splice of the same source is still around. */
  ghost predicate SourceFree(st: State, sp: SpId)
    requires sp in st.sps
  {
    forall y :: y in st.sps && y != sp && st.sps[y].frees == 0 && st.sps[y].srcTaken == 1 ==>
      st.sps[y].src != st.sps[sp].src
  }

  /** A step that installs a splice finds its source free. */
  ghost predicate Disciplined(st: State, st': State) {
    forall x :: x in st.sps && x in st'.sps && st'.sps[x].srcTaken != st.sps[x].srcTaken ==> SourceFree(st, x)
  }

  ghost predicate Held(s: Splice) { s.frees == 0 && s.srcTaken == 1 }

  ghost predicate OnePerSource(st: State) {
    forall x, y :: x in st.sps && y in st.sps && x != y && Held(st.sps[x]) && Held(st.sps[y]) ==>
      st.sps[x].src != st.sps[y].src
  }

  /** What a thread is taking down, or about to, is not on its own list. */
  ghost predicate ApartPc(st: State, pc: Pc) {
    match pc
    case Unsplice(so, rest) => forall x :: x in rest && x in st.sps ==> st.sps[x].src != so
    case UnspDst(sp, rest) => sp !in rest
    case UnspState(sp, rest) => sp !in rest
    case UnspWait(sp, rest) => sp !in rest
    case UnspDropSrc(sp, rest) => sp !in rest
    case UnspDropDst(sp, rest) => sp !in rest
    case UnspFree(sp, rest) => sp !in rest
    case _ => true
  }

  ghost predicate Apart(st: State) {
    OnePerSource(st) && forall t :: t in st.thr ==> ApartPc(st, st.thr[t])
  }

  lemma OnePerSourceStep(st: State, st': State, t: Tid)
    requires Safe(st) && OnePerSource(st) && Moves(st, st', t) && Disciplined(st, st')
    ensures OnePerSource(st')
  {
    hide Safe, TakesDown;
    forall x, y | x in st'.sps && y in st'.sps && x != y && Held(st'.sps[x]) && Held(st'.sps[y])
      ensures st'.sps[x].src != st'.sps[y].src
    {
      assert SameSplice(st.thr[t], x, st.sps[x], st'.sps[x]);
      assert SameSplice(st.thr[t], y, st.sps[y], st'.sps[y]);
    }
  }

  lemma ApartAfter(st: State, st': State, t: Tid, pc': Pc)
    requires Safe(st) && t in st.thr && OnePerSource(st) && ApartPc(st, st.thr[t])
    requires TakesDown(st, st.thr[t], pc')
    requires forall x :: x in st.sps ==> x in st'.sps && st'.sps[x].src == st.sps[x].src
    ensures ApartPc(st', pc')
  {
    hide ThreadsOk, SplicesOk, SocketsOk, QueuesOk;
    PcAt(st, t);
    var pc := st.thr[t];
    var rest := RestOf(pc);
    forall x | x in rest ensures Live(st, x) && Active(st.sps[x].state) {
      var i :| 0 <= i < |rest| && rest[i] == x;
      assert Waiting(st, rest[i], With(t));
    }
    hide RestOk;
    if pc'.Unsplice? && pc.Deciding? {
      FailedApart(st, t);
    } else if pc'.UnspDst? && pc.Unsplice? {
      hide SpOk;
      SockAt(st, pc.so);
    }
  }

  /** The splice that just failed is the only one of its source. */
  lemma {:induction false} FailedApart(st: State, t: Tid)
    requires Safe(st) && t in st.thr && OnePerSource(st) && st.thr[t].Deciding?
    ensures st.thr[t].sp in st.sps
    ensures forall x :: x in st.thr[t].rest ==> x in st.sps && st.sps[x].src != st.sps[st.thr[t].sp].src
  {
    var pc := st.thr[t];
    PcAt(st, t);
    SpAt(st, pc.sp);
    assert pc.sp in st.sps && pc.sp !in pc.rest && Held(st.sps[pc.sp]);
    forall x | x in pc.rest ensures x in st.sps && st.sps[x].src != st.sps[pc.sp].src {
      OnOwnList(st, t, x);
      SpAt(st, x);
      assert Held(st.sps[x]);
    }
  }

  lemma ApartOther(st: State, st': State, pc: Pc)
    requires ApartPc(st, pc)
    requires forall x :: x in st.sps ==> x in st'.sps && st'.sps[x].src == st.sps[x].src
    requires forall x :: x in RestOf(pc) ==> x in st.sps
    ensures ApartPc(st', pc)
  {
  }

  lemma RestKnown(st: State, t: Tid)
    requires Safe(st) && t in st.thr
    ensures forall x :: x in RestOf(st.thr[t]) ==> x in st.sps
  {
    hide ThreadsOk, SplicesOk, SocketsOk, QueuesOk, PcMain;
    PcAt(st, t);
    var rest := RestOf(st.thr[t]);
    forall x | x in rest ensures x in st.sps {
      var i :| 0 <= i < |rest| && rest[i] == x;
      assert Waiting(st, rest[i], With(t));
    }
  }

  lemma ApartStep(st: State, st': State, t: Tid)
    requires Safe(st) && Apart(st) && Moves(st, st', t) && Disciplined(st, st')
    ensures Apart(st')
  {
    OnePerSourceStep(st, st', t);
    hide Safe, OnePerSource, ApartPc, TakesDown, RestOf;
    assert forall x :: x in st.sps ==> x in st'.sps && SameSplice(st.thr[t], x, st.sps[x], st'.sps[x]);
    forall u | u in st'.thr ensures ApartPc(st', st'.thr[u]) {
      if u == t {
        ApartAfter(st, st', t, st'.thr[t]);
      } else {
        RestKnown(st, u);
        ApartOther(st, st', st.thr[u]);
      }
    }
  }

  /** Where every splice of a source is freed before the next one is installed, no thread
      ever waits for itself. */
  lemma {:induction false} NoSelfWait(run: seq<State>, steps: seq<Step>, i: nat, t: Tid, sp: SpId)
    requires IsRun(run, steps) && i < |run|
    requires forall j :: 0 <= j < |steps| ==> Disciplined(run[j], run[j + 1])
    ensures Apart(run[i]) && !SelfWait(run[i], t, sp)
  {
    hide Safe, Enabled, Apply, Disciplined, Moves;
    if i == 0 {
      assert Apart(run[0]);
    } else {
      hide Apart;
      NoSelfWait(run, steps, i - 1, t, sp);
      SafeRun(run, steps, i - 1);
      ApartStep(run[i - 1], run[i], steps[i - 1].Thread());
      ApartNoSelfWait(run[i], t, sp);
    }
  }

  lemma ApartNoSelfWait(st: State, t: Tid, sp: SpId)
    requires Apart(st)
    ensures !SelfWait(st, t, sp)
  {
    hide OnePerSource;
  }
}
