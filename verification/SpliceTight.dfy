/** The bound on what a splice moves is reached. Thread 0 splices socket 0 to socket 1 with limit
    L; whenever it has counted L bytes, thread 1 asks for a splice of socket 0 too. It is refused, but the
    count is back at 0, and the first splice goes on for L bytes more. */
module SpliceTight {
  import opened Basics
  import opened SpliceMachine
  import opened SpliceLimit

  ghost predicate Got(st: State, l: Ledger) {
    exists run, steps, ledgers, maxes ::
      LimitedRun(run, steps, ledgers, maxes) && run[|run| - 1] == st && ledgers[|run| - 1] == l
  }

  lemma {:induction false} Go(st: State, l: Ledger, e: Step, max: nat) returns (st': State, l': Ledger)
    requires Got(st, l) && Enabled(st, e) && Allowed(st, l, e)
    ensures st' == Apply(st, e) && l' == Noted(st, l, e, max) && Got(st', l')
  {
    hide Enabled, Apply, Initial, Moves, Allowed, Noted;
    var run, steps, ledgers, maxes :|
      LimitedRun(run, steps, ledgers, maxes) && run[|run| - 1] == st && ledgers[|run| - 1] == l;
    st', l' := Apply(st, e), Noted(st, l, e, max);
    var run', steps', ledgers', maxes' := run + [st'], steps + [e], ledgers + [l'], maxes + [max];
    assert LimitedRun(run', steps', ledgers', maxes');
    assert run'[|run'| - 1] == st' && ledgers'[|run'| - 1] == l';
  }

  /** Thread 0 is at pc on behalf of splice 0, which is in the given state; thread 1 is at other. Socket
      0 has data, socket 1 has room, work queue 0 holds q, and only splices before n have been used. */
  ghost predicate Shape(st: State, pc: Pc, other: Pc, state: SpState, mtx: Option<Tid>, ticket: Ticket, q: seq<SpId>,
                        data: nat, n: nat) {
    && !st.panic && 0 in st.thr && st.thr[0] == pc && 1 in st.thr && st.thr[1] == other
    && Sp0(st, state, mtx, ticket) && Socks01(st, data) && 0 in st.queues && st.queues[0] == q
    && (forall x :: x in st.sps ==> x < n)
  }

  ghost predicate Sp0(st: State, state: SpState, mtx: Option<Tid>, ticket: Ticket) {
    && 0 in st.sps && st.sps[0].state == state && st.sps[0].mtx == mtx && st.sps[0].ticket == ticket
    && st.sps[0].src == 0 && st.sps[0].dst == Some(1) && st.sps[0].wq == 0 && st.sps[0].frees == 0
  }

  ghost predicate Socks01(st: State, data: nat) {
    && 0 in st.socks && st.socks[0].splice == Some(0) && st.socks[0].rcvLock == None && st.socks[0].avail == data
    && 1 in st.socks && st.socks[1].space == data
  }

  ghost predicate Books(l: Ledger, max: nat, sent: nat, moved: nat, resets: nat) {
    Get(l.limit, 0) == max && Get(l.sent, 0) == sent && Get(l.moved, 0) == moved && Get(l.resets, 0) == resets
  }

  // ---- One round, from a finished transfer to the next ----

  lemma {:induction false} CountShape(st: State, data: nat, n: nat)
    requires Shape(st, Moved(0, [], false), Work([]), Running, None, With(0), [], data, n)
    ensures CanRelock(st, 0)
    ensures Shape(DoRelock(st, 0), Deciding(0, [], false), Work([]), Running, Some(0), With(0), [], data, n)
    ensures st.thr[0] == Moved(0, [], false) && st.sps[0].src == 0
  {
    hide Moves;
  }

  lemma {:induction false} Count(st: State, l: Ledger, max: nat, moved: nat, resets: nat, data: nat, n: nat)
    returns (st': State, l': Ledger)
    requires Got(st, l) && Shape(st, Moved(0, [], false), Work([]), Running, None, With(0), [], data, n)
    requires Books(l, max, 0, moved, resets) && Get(l.len, 0) == max
    ensures Got(st', l') && Shape(st', Deciding(0, [], false), Work([]), Running, Some(0), With(0), [], data, n)
    ensures Books(l', max, max, moved, resets)
  {
    hide Got, Moves, Shape, DoRelock, CanRelock, BufferEnabled, SetupEnabled, CloseEnabled, ApplyBuffer, ApplySetup,
         ApplyClose;
    CountShape(st, data, n);
    st', l' := Go(st, l, Transfer(Relock(0)), 0);
  }

  lemma {:induction false} DisturbShape(st: State, data: nat, n: nat)
    requires Shape(st, Deciding(0, [], false), Work([]), Running, Some(0), With(0), [], data, n)
    ensures CanAlloc(st, 1, n, 0, 1, 0) && 0 in st.sps && n != 0 && Counted(st.sps[0], 0) && st.sps[0].src == 0
    ensures var st' := DoAlloc(st, 1, n, 0, 1, 0);
            && Shape(st', Deciding(0, [], false), SetupSrc(n), Running, Some(0), With(0), [], data, n + 1)
            && n in st'.sps && st'.sps[n].src == 0
  {
    hide Moves;
  }

  lemma {:induction false} Disturb(st: State, l: Ledger, max: nat, moved: nat, resets: nat, data: nat, n: nat)
    returns (st': State, l': Ledger)
    requires Got(st, l) && Shape(st, Deciding(0, [], false), Work([]), Running, Some(0), With(0), [], data, n)
    requires Books(l, max, max, moved, resets)
    ensures Got(st', l') && Shape(st', Deciding(0, [], false), SetupSrc(n), Running, Some(0), With(0), [], data, n + 1)
    ensures Books(l', max, 0, moved, resets + 1) && n in st'.sps && st'.sps[n].src == 0
  {
    hide Got, Moves, Shape, DoAlloc, CanAlloc, Counted, Reset, BufferEnabled, TransferEnabled, CloseEnabled,
         ApplyBuffer, ApplyTransfer, ApplyClose;
    DisturbShape(st, data, n);
    ResetAt(st, l, n, 0, 1, 0);
    st', l' := Go(st, l, Setup(Alloc(1, n, 0, 1, 0)), 1);
  }

  lemma {:induction false} Refuse(st: State, l: Ledger, max: nat, moved: nat, resets: nat, data: nat, n: nat)
    returns (st': State, l': Ledger)
    requires Got(st, l) && Shape(st, Deciding(0, [], false), SetupSrc(n), Running, Some(0), With(0), [], data, n + 1)
    requires Books(l, max, 0, moved, resets) && n in st.sps && st.sps[n].src == 0 && n > 0
    ensures Got(st', l') && Shape(st', Deciding(0, [], false), Work([]), Running, Some(0), With(0), [], data, n + 1)
    ensures Books(l', max, 0, moved, resets)
  {
    hide Got, Moves, BufferEnabled, TransferEnabled, CloseEnabled, ApplyBuffer, ApplyTransfer, ApplyClose;
    st', l' := Go(st, l, Setup(PublishSrc(1, false)), 0);
  }

  lemma {:induction false} Continue(st: State, l: Ledger, max: nat, moved: nat, resets: nat, data: nat, n: nat)
    returns (st': State, l': Ledger)
    requires Got(st, l) && Shape(st, Deciding(0, [], false), Work([]), Running, Some(0), With(0), [], data, n)
    requires Books(l, max, 0, moved, resets) && max > 0 && data > 0
    ensures Got(st', l') && Shape(st', ReadSpace(0, []), Work([]), Running, Some(0), With(0), [], data, n)
    ensures Books(l', max, 0, moved, resets)
  {
    hide Got, Moves, BufferEnabled, SetupEnabled, CloseEnabled, ApplyBuffer, ApplySetup, ApplyClose;
    st', l' := Go(st, l, Transfer(Decide(0, false)), 0);
  }

  lemma {:induction false} SeeRoom(st: State, l: Ledger, max: nat, moved: nat, resets: nat, data: nat, n: nat)
    returns (st': State, l': Ledger)
    requires Got(st, l) && Shape(st, ReadSpace(0, []), Work([]), Running, Some(0), With(0), [], data, n)
    requires Books(l, max, 0, moved, resets) && data > 0
    ensures Got(st', l') && Shape(st', AsyncDue(0, []), Work([]), Queued, None, With(0), [], data, n)
    ensures Books(l', max, 0, moved, resets)
  {
    hide Got, Moves, BufferEnabled, SetupEnabled, CloseEnabled, ApplyBuffer, ApplySetup, ApplyClose;
    st', l' := Go(st, l, Transfer(CheckSpace(0)), 0);
  }

  lemma {:induction false} Queue(st: State, l: Ledger, max: nat, moved: nat, resets: nat, data: nat, n: nat)
    returns (st': State, l': Ledger)
    requires Got(st, l) && Shape(st, AsyncDue(0, []), Work([]), Queued, None, With(0), [], data, n)
    requires Books(l, max, 0, moved, resets)
    ensures Got(st', l') && Shape(st', Work([]), Work([]), Queued, None, OnQueue, [0], data, n)
    ensures Books(l', max, 0, moved, resets)
  {
    hide Got, Moves, TransferEnabled, SetupEnabled, CloseEnabled, ApplyTransfer, ApplySetup, ApplyClose;
    st', l' := Go(st, l, Buffer(Enqueue(0)), 0);
  }

  lemma {:induction false} Take(st: State, l: Ledger, max: nat, moved: nat, resets: nat, data: nat, n: nat)
    returns (st': State, l': Ledger)
    requires Got(st, l) && Shape(st, Work([]), Work([]), Queued, None, OnQueue, [0], data, n)
    requires Books(l, max, 0, moved, resets)
    ensures Got(st', l') && Shape(st', Work([0]), Work([]), Queued, None, With(0), [], data, n)
    ensures Books(l', max, 0, moved, resets)
  {
    hide Got, Moves, BufferEnabled, SetupEnabled, CloseEnabled, ApplyBuffer, ApplySetup, ApplyClose;
    st', l' := Go(st, l, Transfer(TakeQueue(0, 0)), 0);
  }

  lemma {:induction false} LockIt(st: State, l: Ledger, max: nat, moved: nat, resets: nat, data: nat, n: nat)
    returns (st': State, l': Ledger)
    requires Got(st, l) && Shape(st, Work([0]), Work([]), Queued, None, With(0), [], data, n)
    requires Books(l, max, 0, moved, resets)
    ensures Got(st', l') && Shape(st', Xfer(0, []), Work([]), Queued, Some(0), With(0), [], data, n)
    ensures Books(l', max, 0, moved, resets)
  {
    hide Got, Moves, BufferEnabled, SetupEnabled, CloseEnabled, ApplyBuffer, ApplySetup, ApplyClose;
    st', l' := Go(st, l, Transfer(LockNext(0)), 0);
  }

  lemma {:induction false} Begin(st: State, l: Ledger, max: nat, moved: nat, resets: nat, data: nat, n: nat)
    returns (st': State, l': Ledger)
    requires Got(st, l) && Shape(st, Xfer(0, []), Work([]), Queued, Some(0), With(0), [], data, n)
    requires Books(l, max, 0, moved, resets) && max > 0
    ensures Got(st', l') && Shape(st', Moving(0, []), Work([]), Running, None, With(0), [], data, n)
    ensures Books(l', max, 0, moved, resets) && RoomOf(l', 0) == Some(max)
  {
    hide Got, Moves, BufferEnabled, SetupEnabled, CloseEnabled, ApplyBuffer, ApplySetup, ApplyClose;
    st', l' := Go(st, l, Transfer(BeginXfer(0)), 0);
  }

  lemma {:induction false} CarryCan(st: State, max: nat, data: nat, n: nat)
    requires Shape(st, Moving(0, []), Work([]), Running, None, With(0), [], data, n) && max <= data
    ensures CanMove(st, 0, max, max)
  {
  }

  lemma {:induction false} CarrySocks(st: State, max: nat, data: nat)
    requires Socks01(st, data) && max <= data && CanMove(st, 0, max, max) && st.sps[st.thr[0].sp].src == 0
    requires st.sps[st.thr[0].sp].dst == Some(1)
    ensures Socks01(DoMove(st, 0, max, max, false), data - max)
  {
    hide Moves;
  }

  lemma {:induction false} CarryShape(st: State, max: nat, data: nat, n: nat)
    requires Shape(st, Moving(0, []), Work([]), Running, None, With(0), [], data, n) && max <= data
    ensures CanMove(st, 0, max, max) && st.thr[0] == Moving(0, [])
    ensures Shape(DoMove(st, 0, max, max, false), Moved(0, [], false), Work([]), Running, None, With(0), [], data - max,
                  n)
  {
    hide Moves, Socks01;
    assert CanMove(st, 0, max, max) by { CarryCan(st, max, data, n); }
    CarrySocks(st, max, data);
  }

  lemma {:induction false} Carry(st: State, l: Ledger, max: nat, moved: nat, resets: nat, data: nat, n: nat)
    returns (st': State, l': Ledger)
    requires Got(st, l) && Shape(st, Moving(0, []), Work([]), Running, None, With(0), [], data, n)
    requires Books(l, max, 0, moved, resets) && RoomOf(l, 0) == Some(max) && max <= data
    ensures Got(st', l') && Shape(st', Moved(0, [], false), Work([]), Running, None, With(0), [], data - max, n)
    ensures Books(l', max, 0, moved + max, resets) && Get(l'.len, 0) == max
  {
    hide Got, Moves, Shape, DoMove, CanMove, BufferEnabled, SetupEnabled, CloseEnabled, ApplyBuffer, ApplySetup,
         ApplyClose;
    CarryShape(st, max, data, n);
    st', l' := Go(st, l, Transfer(Move(0, max, max, false)), 0);
  }

  lemma {:induction false} FullTransfer(st: State, l: Ledger, max: nat, moved: nat, resets: nat, data: nat, n: nat)
    returns (st': State, l': Ledger)
    requires Got(st, l) && Shape(st, Xfer(0, []), Work([]), Queued, Some(0), With(0), [], data, n)
    requires Books(l, max, 0, moved, resets) && 0 < max <= data
    ensures Got(st', l') && Shape(st', Moved(0, [], false), Work([]), Running, None, With(0), [], data - max, n)
    ensures Books(l', max, 0, moved + max, resets) && Get(l'.len, 0) == max
  {
    hide Got, Shape, Books, RoomOf, Get;
    st', l' := Begin(st, l, max, moved, resets, data, n);
    st', l' := Carry(st', l', max, moved, resets, data, n);
  }

  lemma {:induction false} Requeue(st: State, l: Ledger, max: nat, moved: nat, resets: nat, data: nat, n: nat)
    returns (st': State, l': Ledger)
    requires Got(st, l) && Shape(st, Deciding(0, [], false), Work([]), Running, Some(0), With(0), [], data, n)
    requires Books(l, max, 0, moved, resets) && max > 0 && data > 0
    ensures Got(st', l') && Shape(st', Xfer(0, []), Work([]), Queued, Some(0), With(0), [], data, n)
    ensures Books(l', max, 0, moved, resets)
  {
    hide Got, Shape, Books;
    st', l' := Continue(st, l, max, moved, resets, data, n);
    st', l' := SeeRoom(st', l', max, moved, resets, data, n);
    st', l' := Queue(st', l', max, moved, resets, data, n);
    st', l' := Take(st', l', max, moved, resets, data, n);
    st', l' := LockIt(st', l', max, moved, resets, data, n);
  }

  lemma {:induction false} Round(st: State, l: Ledger, max: nat, moved: nat, resets: nat, data: nat, n: nat)
    returns (st': State, l': Ledger)
    requires Got(st, l) && Shape(st, Moved(0, [], false), Work([]), Running, None, With(0), [], data, n)
    requires Books(l, max, 0, moved, resets) && Get(l.len, 0) == max && 0 < max <= data && n > 0
    ensures Got(st', l') && Shape(st', Moved(0, [], false), Work([]), Running, None, With(0), [], data - max, n + 1)
    ensures Books(l', max, 0, moved + max, resets + 1) && Get(l'.len, 0) == max
  {
    hide Got, Shape, Books, Get;
    st', l' := Count(st, l, max, moved, resets, data, n);
    st', l' := Disturb(st', l', max, moved, resets, data, n);
    st', l' := Refuse(st', l', max, moved, resets + 1, data, n);
    st', l' := Requeue(st', l', max, moved, resets + 1, data, n + 1);
    st', l' := FullTransfer(st', l', max, moved, resets + 1, data, n + 1);
  }

  // ---- The set-up ----

  ghost function Start(data: nat): State {
    State(map[0 := Work([]), 1 := Work([])], map[],
          map[0 := Socket(None, None, data, 0, None, None), 1 := Socket(None, None, 0, data, None, None)],
          map[0 := []], false)
  }

  ghost function SetupState(data: nat, pc: Pc, mtx: Option<Tid>, attached: bool, taken: nat, sunk: nat): State {
    State(map[0 := pc, 1 := Work([])],
          map[0 := Splice(Init, 0, Some(1), 0, mtx, NoTicket, Some(0), None, attached, taken, 0, sunk, 0, 0, 0)],
          map[0 := Socket(if taken > 0 then Some(0) else None, None, data, 0, None, None),
              1 := Socket(None, if sunk > 0 then Some(0) else None, 0, data, None, None)],
          map[0 := []], false)
  }

  lemma {:induction false} AtStart(data: nat)
    ensures Got(Start(data), NoEntries)
  {
    hide Enabled, Apply, Allowed, Noted;
    assert LimitedRun([Start(data)], [], [NoEntries], []);
    assert [Start(data)][|[Start(data)]| - 1] == Start(data) && [NoEntries][|[Start(data)]| - 1] == NoEntries;
  }

  lemma {:induction false} Ask(max: nat, data: nat) returns (st: State, l: Ledger)
    ensures Got(st, l) && st == SetupState(data, SetupSrc(0), None, false, 0, 0) && Books(l, max, 0, 0, 0)
  {
    hide Got, Moves, BufferEnabled, TransferEnabled, CloseEnabled, ApplyBuffer, ApplyTransfer, ApplyClose;
    AtStart(data);
    st, l := Go(Start(data), NoEntries, Setup(Alloc(0, 0, 0, 1, 0)), max);
  }

  lemma {:induction false} PublishShape(data: nat)
    ensures var st := SetupState(data, SetupSrc(0), None, false, 0, 0);
            CanPublishSrc(st, 0) && DoPublishSrc(st, 0, false) == SetupState(data, SetupDst(0), None, false, 1, 0)
  {
    hide Moves;
    var st, st' := SetupState(data, SetupSrc(0), None, false, 0, 0), SetupState(data, SetupDst(0), None, false, 1, 0);
    assert DoPublishSrc(st, 0, false).socks == st'.socks;
    assert DoPublishSrc(st, 0, false).sps == st'.sps;
    assert DoPublishSrc(st, 0, false).thr == st'.thr;
  }

  lemma {:induction false} Publish(st: State, l: Ledger, max: nat, data: nat) returns (st': State, l': Ledger)
    requires Got(st, l) && st == SetupState(data, SetupSrc(0), None, false, 0, 0) && Books(l, max, 0, 0, 0)
    ensures Got(st', l') && st' == SetupState(data, SetupDst(0), None, false, 1, 0) && Books(l', max, 0, 0, 0)
  {
    hide Got, Moves, SetupState, Books, CanPublishSrc, DoPublishSrc, BufferEnabled, TransferEnabled, CloseEnabled,
         ApplyBuffer, ApplyTransfer, ApplyClose;
    PublishShape(data);
    st', l' := Go(st, l, Setup(PublishSrc(0, false)), 0);
  }

  lemma {:induction false} HoldShape(data: nat)
    ensures var st := SetupState(data, SetupDst(0), None, false, 1, 0);
            CanPublishDst(st, 0) && DoPublishDst(st, 0, false) == SetupState(data, SetupHeld(0), Some(0), true, 1, 1)
  {
    hide Moves;
    var st, st' := SetupState(data, SetupDst(0), None, false, 1, 0), SetupState(data, SetupHeld(0), Some(0), true, 1,
                                                                                1);
    assert DoPublishDst(st, 0, false).socks == st'.socks;
    assert DoPublishDst(st, 0, false).sps == st'.sps;
    assert DoPublishDst(st, 0, false).thr == st'.thr;
  }

  lemma {:induction false} Hold(st: State, l: Ledger, max: nat, data: nat) returns (st': State, l': Ledger)
    requires Got(st, l) && st == SetupState(data, SetupDst(0), None, false, 1, 0) && Books(l, max, 0, 0, 0)
    ensures Got(st', l') && st' == SetupState(data, SetupHeld(0), Some(0), true, 1, 1) && Books(l', max, 0, 0, 0)
  {
    hide Got, Moves, SetupState, Books, CanPublishDst, DoPublishDst, BufferEnabled, TransferEnabled, CloseEnabled,
         ApplyBuffer, ApplyTransfer, ApplyClose;
    HoldShape(data);
    st', l' := Go(st, l, Setup(PublishDst(0, false)), 0);
  }

  lemma {:induction false} FirstShape(data: nat)
    ensures var st := SetupState(data, SetupHeld(0), Some(0), true, 1, 1);
            && CanFirstXfer(st, 0)
            && Shape(DoFirstXfer(st, 0), Xfer(0, []), Work([]), Queued, Some(0), With(0), [], data, 1)
  {
    hide Moves;
  }

  lemma {:induction false} First(st: State, l: Ledger, max: nat, data: nat) returns (st': State, l': Ledger)
    requires Got(st, l) && st == SetupState(data, SetupHeld(0), Some(0), true, 1, 1) && Books(l, max, 0, 0, 0)
    ensures Got(st', l') && Shape(st', Xfer(0, []), Work([]), Queued, Some(0), With(0), [], data, 1)
    ensures Books(l', max, 0, 0, 0)
  {
    hide Got, Moves, Shape, SetupState, Books, CanFirstXfer, DoFirstXfer, BufferEnabled, TransferEnabled, CloseEnabled,
         ApplyBuffer, ApplyTransfer, ApplyClose;
    FirstShape(data);
    st', l' := Go(st, l, Setup(FirstXfer(0)), 0);
  }

  lemma {:induction false} SetUp(max: nat, data: nat) returns (st: State, l: Ledger)
    requires 0 < max <= data
    ensures Got(st, l) && Shape(st, Moved(0, [], false), Work([]), Running, None, With(0), [], data - max, 1)
    ensures Books(l, max, 0, max, 0) && Get(l.len, 0) == max
  {
    hide Got, Shape, Books, Get, SetupState;
    st, l := Ask(max, data);
    st, l := Publish(st, l, max, data);
    st, l := Hold(st, l, max, data);
    st, l := First(st, l, max, data);
    st, l := FullTransfer(st, l, max, 0, 0, data, 1);
  }

  /** k rounds, with left bytes to spare. */
  lemma {:induction false} Rounds(max: nat, left: nat, k: nat) returns (st: State, l: Ledger)
    requires max > 0
    ensures Got(st, l) && Shape(st, Moved(0, [], false), Work([]), Running, None, With(0), [], left, k + 1)
    ensures Books(l, max, 0, max * (k + 1), k) && Get(l.len, 0) == max
    decreases k
  {
    hide Got, Shape, Books, Get;
    if k == 0 {
      st, l := SetUp(max, left + max);
    } else {
      st, l := Rounds(max, left + max, k - 1);
      st, l := Round(st, l, max, max * k, k - 1, left + max, k);
      assert max * k + max == max * (k + 1);
    }
  }

  /** For every limit and every number of further calls, some run reaches the bound. */
  lemma {:induction false} LimitIsTight(max: nat, k: nat) returns (st: State, l: Ledger)
    requires max > 0
    ensures Got(st, l) && 0 in st.sps
    ensures Get(l.limit, 0) == max && Get(l.resets, 0) == k && Get(l.moved, 0) == max * (k + 1)
  {
    hide Got;
    st, l := Rounds(max, 0, k);
  }
}
