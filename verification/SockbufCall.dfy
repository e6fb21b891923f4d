/** A whole call of soreceive_stream_locked: passes over the buffer, with waits in between. */
module SockbufCall {
  import opened Basics
  import opened SockbufValues
  import opened SockbufChain
  import opened SockbufReceive

  /** What happens while the buffer is unlocked, in a copy or in a wait: what arrives, the error sbwait
      returns, and so_error and the closed door as the next pass finds them. */
  datatype Turn = Turn(arrivals: seq<Arrival>, error: int, fault: int, closed: bool)

  datatype Outcome = Done(error: int) | Waiting

  /** Everything that arrives in the given turns, in order. */
  ghost function Stream(script: seq<Turn>): seq<Cell> {
    if script == [] then [] else Stream(script[..|script| - 1]) + Arrived(script[|script| - 1].arrivals)
  }

  lemma {:induction false} StreamNext(script: seq<Turn>, i: nat)
    requires i < |script|
    ensures Stream(script[..i + 1]) == Stream(script[..i]) + Arrived(script[i].arrivals)
  {
    hide Arrived;
    assert script[..i + 1][..i] == script[..i];
  }

  lemma {:induction false} ArrivedParts(a: seq<Arrival>, t: nat)
    requires t <= |a|
    ensures Arrived(a[..t]) + Arrived(a[t..]) == Arrived(a)
    decreases |a|
  {
    hide Cells, Demoted;
    if t == |a| {
      assert a[..t] == a && a[t..] == [];
    } else {
      var n := |a| - 1;
      ArrivedParts(a[..n], t);
      assert a[..n][..t] == a[..t] && a[..n][t..] == a[t..][..n - t];
    }
  }

  /** k bytes of the stream q0 + got are in the vectors, and the buffer holds the rest. */
  ghost predicate Streaming(q0: seq<Cell>, got: seq<Cell>, q: seq<Cell>, k: nat, iov0: seq<Iovec>, iov: seq<Iovec>,
                            resid0: nat, resid: nat) {
    && k <= |q0 + got| && q == (q0 + got)[k..] && Moved(iov0, iov, resid0, resid, Plain(q0 + got), k)
    && resid <= Space(iov)
  }

  lemma {:induction false} StreamStarts(q0: seq<Cell>, iov: seq<Iovec>, resid: nat)
    requires resid <= Space(iov)
    ensures Streaming(q0, [], q0, 0, iov, iov, resid, resid)
  {
    hide Space, Filled;
    assert q0 + [] == q0 && q0[0..] == q0 && Plain(q0)[..0] == [];
  }

  lemma {:induction false} StreamGrows(q0: seq<Cell>, got: seq<Cell>, q: seq<Cell>, k: nat, iov0: seq<Iovec>,
                                       iov: seq<Iovec>, resid0: nat, resid: nat, more: seq<Cell>)
    requires Streaming(q0, got, q, k, iov0, iov, resid0, resid)
    ensures Streaming(q0, got + more, q + more, k, iov0, iov, resid0, resid)
  {
    hide Space, Filled;
    assert q0 + (got + more) == q0 + got + more;
    assert (q0 + got + more)[k..] == (q0 + got)[k..] + more;
    assert Plain(q0 + got + more)[..k] == Plain(q0 + got)[..k];
  }

  lemma {:induction false} StreamMoves(q0: seq<Cell>, got: seq<Cell>, q: seq<Cell>, k: nat, iov0: seq<Iovec>,
                                       iov: seq<Iovec>, resid0: nat, resid: nat, iov': seq<Iovec>, resid': nat, n: nat)
    requires Streaming(q0, got, q, k, iov0, iov, resid0, resid) && n <= |q|
    requires Moved(iov, iov', resid, resid', Plain(q), n)
    ensures Streaming(q0, got, q[n..], k + n, iov0, iov', resid0, resid')
  {
    hide Space, Filled;
    var s := q0 + got;
    assert s[k..][n..] == s[k + n..];
    assert Plain(s)[..k + n] == Plain(s)[..k] + Plain(q)[..n];
    MovedBoth(iov0, iov, iov', resid0, resid, resid', Plain(s), k, Plain(q), n);
  }

  lemma {:induction false} StreamRoom(q0: seq<Cell>, got: seq<Cell>, q: seq<Cell>, k: nat, iov0: seq<Iovec>,
                                      iov: seq<Iovec>, resid0: nat, resid: nat)
    requires Streaming(q0, got, q, k, iov0, iov, resid0, resid)
    ensures resid <= Space(iov) && k <= |q0 + got|
  {
  }

  /** One pass: more arrives during the copy, and n bytes of what was there before are copied. */
  lemma {:induction false} StreamPass(q0: seq<Cell>, got: seq<Cell>, q: seq<Cell>, k: nat, iov0: seq<Iovec>,
                                      iov: seq<Iovec>, resid0: nat, resid: nat,
                                      iov': seq<Iovec>, resid': nat, n: nat, more: seq<Cell>)
    requires Streaming(q0, got, q, k, iov0, iov, resid0, resid) && n <= |q|
    requires Moved(iov, iov', resid, resid', Plain(q), n)
    ensures Streaming(q0, got + more, (q + more)[n..], k + n, iov0, iov', resid0, resid')
  {
    hide Streaming, Space, Filled;
    StreamGrows(q0, got, q, k, iov0, iov, resid0, resid, more);
    assert Plain(q + more)[..n] == Plain(q)[..n];
    StreamMoves(q0, got + more, q + more, k, iov0, iov, resid0, resid, iov', resid', n);
  }

  /** Everything in arrivals is appended. */
  method ArriveAll(sb: Sockbuf, arrivals: seq<Arrival>)
    requires sb.Valid()
    modifies sb, sb.chain
    ensures sb.Valid() && sb.Contents() == old(sb.Contents()) + Arrived(arrivals)
    ensures (Solid(old(sb.view)) ==> Solid(sb.view))
    ensures old(sb.chain) <= sb.chain && forall i :: |old(sb.chain)| <= i < |sb.chain| ==> fresh(sb.chain[i])
  {
    hide Sockbuf.Valid, Cells, Arrived, Grows, Full, Demoted, Solid;
    NoneArrived(arrivals);
    ghost var q := sb.Contents();
    assert q + [] == q;
    for i := 0 to |arrivals|
      invariant sb.Valid() && sb.Contents() == q + Arrived(arrivals[..i]) && (Solid(old(sb.view)) ==> Solid(sb.view))
      invariant old(sb.chain) <= sb.chain && forall i :: |old(sb.chain)| <= i < |sb.chain| ==> fresh(sb.chain[i])
    {
      ghost var v := sb.view;
      Arrive(sb, arrivals[i]);
      if Solid(v) { SolidGrows(v, sb.view); }
      ArrivedNext(arrivals, i);
    }
    assert arrivals[..|arrivals|] == arrivals;
  }

  lemma {:induction false} NoneArrived(arrivals: seq<Arrival>)
    ensures Arrived(arrivals[..0]) == []
  {
  }

  /** The decision at restart, for a connected reader with room left; done says that some bytes are
      delivered already. */
  function Again(c: Call, resid: nat, avail: nat, done: bool): Verdict {
    if c.fault != 0 && avail == 0 && done then Leave(0) else Decide(c.(resid := resid), avail)
  }

  lemma {:induction false} Verdicts(c: Call, resid: nat, avail: nat, done: bool)
    requires resid > 0 && c.connected && c.hiwat > 0
    ensures Again(c, resid, avail, done) == Give ==> avail > 0
    ensures Again(c, resid, avail, done) == Leave(0) ==> avail == 0 && (c.closed || (c.fault != 0 && done))
  {
  }

  /** An unlocked stretch: the data part, or a wait. What does not arrive during a copy arrives behind it. */
  method Pass(sb: Sockbuf, uio: Uio, give: bool, arrivals: seq<Arrival>, ghost q0: seq<Cell>, ghost got: seq<Cell>,
              ghost k: nat,
              ghost iov0: seq<Iovec>, ghost resid0: nat)
    returns (ghost n: nat)
    requires sb.Valid() && uio.Valid() && (give ==> 0 < sb.acc) && 0 < uio.resid <= Space(uio.iov)
    requires Streaming(q0, got, sb.Contents(), k, iov0, uio.iov, resid0, uio.resid)
    modifies sb, sb.chain, uio
    ensures sb.Valid() && uio.Valid() && uio.resid <= Space(uio.iov) && (Solid(old(sb.view)) ==> Solid(sb.view))
    ensures n == k + (if give then Min(old(uio.resid), old(sb.acc)) else 0) && uio.resid == old(uio.resid) - (n - k)
    ensures n <= |q0 + (got + Arrived(arrivals))|
    ensures Streaming(q0, got + Arrived(arrivals), sb.Contents(), n, iov0, uio.iov, resid0, uio.resid)
    ensures forall i :: 0 <= i < |sb.chain| ==> sb.chain[i] in old(sb.chain) || fresh(sb.chain[i])
  {
    hide Sockbuf.Valid, Cells, InOrder, Space, Filled, Streaming, Arrived, Plain, Solid;
    ghost var q, iov1, resid1, more := sb.Contents(), uio.iov, uio.resid, [];
    var t: nat := 0;
    n := k;
    if give {
      var error;
      ghost var m;
      Readable(sb);
      error, m, t := Deliver(sb, uio, false, arrivals);
      n, more := k + m, Arrived(arrivals[..t]);
      StreamPass(q0, got, q, k, iov0, iov1, resid0, resid1, uio.iov, uio.resid, m, more);
    } else {
      NoneArrived(arrivals);
      assert got + more == got;
    }
    StreamGrows(q0, got + more, sb.Contents(), n, iov0, uio.iov, resid0, uio.resid, Arrived(arrivals[t..]));
    ArriveAll(sb, arrivals[t..]);
    ArrivedParts(arrivals, t);
    assert got + more + Arrived(arrivals[t..]) == got + Arrived(arrivals);
    StreamRoom(q0, got + Arrived(arrivals), sb.Contents(), n, iov0, uio.iov, resid0, uio.resid);
  }

  /** Where an error that a call reports comes from: the two checks at its start, the decision at
      its end, or the wait that ended it. */
  ghost predicate Explained(e: int, call: Call, script: seq<Turn>, used: nat, last: Call, resid: nat, avail: nat,
                            n: nat) {
    || (e == EINVAL && call.resid == 0 && n == 0 && used == 0)
    || (e == ENOTCONN && call.resid > 0 && !call.connected && n == 0 && used == 0)
    || (call.resid > 0 && call.connected && Again(last, resid, avail, n > 0) == Leave(e))
    || (call.resid > 0 && call.connected && 0 < used <= |script| && e == script[used - 1].error)
  }

  /** so_error and the closed door are as the call found them, or as the last turn left them. */
  ghost predicate Seen(call: Call, script: seq<Turn>, used: nat, last: Call) {
    && used <= |script| && last == call.(fault := last.fault, closed := last.closed)
    && if used == 0 then last == call
       else last.fault == script[used - 1].fault && last.closed == script[used - 1].closed
  }

  // ---- What a call does, on values ----

  datatype Result = Result(outcome: Outcome, used: nat, n: nat)

  function After(last: Call, script: seq<Turn>, i: nat): Call {
    if i < |script| then last.(fault := script[i].fault, closed := script[i].closed) else last
  }

  /** The rest of a call that has seen the first i turns and has delivered k bytes of the stream. */
  ghost function Onward(call: Call, script: seq<Turn>, q0: seq<Cell>, i: nat, k: nat, last: Call): Result
    requires i <= |script| && k <= call.resid && k <= |q0 + Stream(script[..i])|
    decreases call.resid - k, |script| - i
  {
    var avail := ReadyPrefix((q0 + Stream(script[..i]))[k..]);
    match Again(last, call.resid - k, avail, k > 0)
    case Leave(e) => Result(Done(e), i, k)
    case Wait =>
      if i == |script| then Result(Waiting, i, k)
      else if script[i].error != 0 then Result(Done(script[i].error), i + 1, k)
      else StreamLonger(script, q0, i); Onward(call, script, q0, i + 1, k, After(last, script, i))
    case Give =>
      ReadyPrefixFits((q0 + Stream(script[..i]))[k..]);
      StreamLonger(script, q0, i);
      var j, m := if i < |script| then i + 1 else i, k + Min(call.resid - k, avail);
      if m == k || !(call.waitall && m < call.resid) then Result(Done(0), j, m)
      else Onward(call, script, q0, j, m, After(last, script, i))
  }

  lemma {:induction false} ReadyPrefixFits(q: seq<Cell>)
    ensures ReadyPrefix(q) <= |q| && forall i :: 0 <= i < ReadyPrefix(q) ==> q[i].ready
  {
    if q != [] && q[0].ready {
      ReadyPrefixFits(q[1..]);
      forall i | 0 < i < ReadyPrefix(q) ensures q[i].ready { assert q[i] == q[1..][i - 1]; }
    }
  }

  lemma {:induction false} StreamLonger(script: seq<Turn>, q0: seq<Cell>, i: nat)
    requires i <= |script|
    ensures i < |script| ==> q0 + Stream(script[..i + 1]) == q0 + Stream(script[..i]) + Arrived(script[i].arrivals)
  {
    hide Arrived, Stream;
    if i < |script| { StreamNext(script, i); }
  }

  ghost function Whole(call: Call, script: seq<Turn>, q0: seq<Cell>): Result {
    if call.resid == 0 then Result(Done(EINVAL), 0, 0)
    else if !call.connected then Result(Done(ENOTCONN), 0, 0)
    else Onward(call, script, q0, 0, 0, call)
  }

  lemma {:induction false} NoTurns(script: seq<Turn>)
    ensures Stream(script[..0]) == []
  {
  }

  lemma {:induction false} TurnTaken(script: seq<Turn>, i: nat, turn: Turn)
    requires i <= |script| && (if i < |script| then turn == script[i] else turn.arrivals == [])
    ensures Stream(script[..if i < |script| then i + 1 else i]) == Stream(script[..i]) + Arrived(turn.arrivals)
  {
    hide Stream;
    if i < |script| { StreamNext(script, i); }
  }

  lemma {:induction false} StreamAt(sb: Sockbuf, q0: seq<Cell>, got: seq<Cell>, k: nat, iov0: seq<Iovec>,
                                    iov: seq<Iovec>, resid0: nat, resid: nat)
    requires sb.Valid() && Streaming(q0, got, sb.Contents(), k, iov0, iov, resid0, resid)
    ensures k <= |q0 + got| && (Solid(sb.view) ==> sb.acc == ReadyPrefix((q0 + got)[k..]))
  {
    hide Moved, Space;
    Readable(sb);
    hide Sockbuf.Valid, Available;
    if Solid(sb.view) { AvailableIsReadyPrefix(sb.view); }
  }

  /** One step of the call, on values. */
  lemma {:induction false} OnwardStep(call: Call, script: seq<Turn>, q0: seq<Cell>, i: nat, k: nat, last: Call,
                                      avail: nat)
    requires i <= |script| && k < call.resid && k <= |q0 + Stream(script[..i])|
    requires avail == ReadyPrefix((q0 + Stream(script[..i]))[k..])
    ensures var v, r := Again(last, call.resid - k, avail, k > 0), Onward(call, script, q0, i, k, last);
            var j, m := if i < |script| then i + 1 else i, k + Min(call.resid - k, avail);
            && (v.Leave? ==> r == Result(Done(v.error), i, k))
            && (v.Wait? && i == |script| ==> r == Result(Waiting, i, k))
            && (v.Wait? && i < |script| && script[i].error != 0 ==> r == Result(Done(script[i].error), i + 1, k))
            && (v.Wait? && i < |script| && script[i].error == 0 ==>
                  && k <= |q0 + Stream(script[..i + 1])|
                  && r == Onward(call, script, q0, i + 1, k, After(last, script, i)))
            && (v.Give? && avail > 0 ==>
                  && m <= call.resid && m <= |q0 + Stream(script[..j])|
                  && r == if call.waitall && m < call.resid then Onward(call, script, q0, j, m, After(last, script, i))
                          else Result(Done(0), j, m))
  {
    hide Stream, Again;
    ReadyPrefixFits((q0 + Stream(script[..i]))[k..]);
    StreamLonger(script, q0, i);
  }

  /** A call in its course: i turns have taken place, n bytes have been delivered, and there is room
      for more. solid says that the buffer held no mbuf both empty and not ready. */
  ghost predicate Going(sb: Sockbuf, uio: Uio, call: Call, script: seq<Turn>, i: nat, n: nat, now: Call, solid: bool,
                        q0: seq<Cell>, iov0: seq<Iovec>)
    reads sb, sb.chain, uio
  {
    && sb.Valid() && uio.Valid() && Seen(call, script, i, now) && call.resid > 0 && call.connected && call.hiwat > 0
    && 0 < uio.resid <= Space(uio.iov) && uio.resid == call.resid - n && n <= |q0 + Stream(script[..i])|
    && Streaming(q0, Stream(script[..i]), sb.Contents(), n, iov0, uio.iov, call.resid, uio.resid)
    && (solid ==> Solid(sb.view) && Whole(call, script, q0) == Onward(call, script, q0, i, n, now))
  }

  /** What a call that is over, or waits beyond the script, promises. */
  ghost predicate Over(call: Call, script: seq<Turn>, q0: seq<Cell>, solid: bool, outcome: Outcome, last: Call,
                       used: nat, n: nat, resid: nat, avail: nat) {
    && Seen(call, script, used, last)
    && (solid ==> Result(outcome, used, n) == Whole(call, script, q0))
    && (outcome.Waiting? ==> resid > 0 && used == |script| && Again(last, resid, avail, n > 0) == Wait)
    && (outcome.Done? && outcome.error != 0 ==> Explained(outcome.error, call, script, used, last, resid, avail, n))
    && (outcome == Done(0) ==> call.resid > 0 && call.connected && (n > 0 || (avail == 0 && last.closed)))
    && (outcome == Done(0) && call.waitall ==> resid == 0 || (avail == 0 && (last.closed || last.fault != 0)))
  }

  /** From one decision to the next. */
  method Round(sb: Sockbuf, uio: Uio, call: Call, script: seq<Turn>, i0: nat, now0: Call, ghost n0: nat,
               ghost solid: bool,
               ghost q0: seq<Cell>, ghost iov0: seq<Iovec>)
    returns (over: bool, outcome: Outcome, i: nat, now: Call, ghost n: nat)
    requires Going(sb, uio, call, script, i0, n0, now0, solid, q0, iov0)
    modifies sb, sb.chain, uio
    ensures sb.Valid() && uio.Valid() && Seen(call, script, i, now)
    ensures Streaming(q0, Stream(script[..i]), sb.Contents(), n, iov0, uio.iov, call.resid, uio.resid)
    ensures if over then Over(call, script, q0, solid, outcome, now, i, n, uio.resid, sb.acc)
            else Going(sb, uio, call, script, i, n, now, solid, q0, iov0)
                 && (uio.resid < old(uio.resid) || (uio.resid == old(uio.resid) && i > i0))
    ensures forall i :: 0 <= i < |sb.chain| ==> sb.chain[i] in old(sb.chain) || fresh(sb.chain[i])
  {
    hide Sockbuf.Valid, Cells, InOrder, Space, Filled, Streaming, Arrived, Stream, Again, Moved, Delivered, Plain,
         Solid, Onward, ReadyPrefix, Whole;
    var verdict := Again(now0, uio.resid, sb.acc, uio.resid < call.resid);
    Verdicts(now0, uio.resid, sb.acc, uio.resid < call.resid);
    StreamAt(sb, q0, Stream(script[..i0]), n0, iov0, uio.iov, call.resid, uio.resid);
    if solid { OnwardStep(call, script, q0, i0, n0, now0, sb.acc); }
    over, outcome, i, now, n := true, Waiting, i0, now0, n0;
    if verdict.Leave? { outcome := Done(verdict.error); return; }
    if verdict.Wait? && i0 == |script| { return; }
    var turn := if i0 < |script| then script[i0] else Turn([], 0, now0.fault, now0.closed);
    n := Pass(sb, uio, verdict.Give?, turn.arrivals, q0, Stream(script[..i0]), n0, iov0, call.resid);
    TurnTaken(script, i0, turn);
    i := if i0 < |script| then i0 + 1 else i0;
    now := now0.(fault := turn.fault, closed := turn.closed);
    if verdict.Wait? && turn.error != 0 { outcome := Done(turn.error); return; }
    if verdict.Give? && !(call.waitall && uio.resid > 0) { outcome := Done(0); return; }
    over := false;
  }

  /** One call without MSG_PEEK. script says what happens in each unlocked stretch; a call that would
      wait beyond it is still waiting. The first used turns took place. */
  method ReceiveCall(sb: Sockbuf, uio: Uio, call: Call, script: seq<Turn>)
    returns (outcome: Outcome, ghost last: Call, ghost used: nat, ghost n: nat)
    requires sb.Valid() && uio.Valid() && uio.resid <= Space(uio.iov) && call.resid == uio.resid && call.hiwat > 0
    modifies sb, sb.chain, uio
    ensures sb.Valid() && uio.Valid() && used <= |script|
    ensures Streaming(old(sb.Contents()), Stream(script[..used]), sb.Contents(), n,
                      old(uio.iov), uio.iov, old(uio.resid), uio.resid)
    ensures Over(call, script, old(sb.Contents()), Solid(old(sb.view)), outcome, last, used, n, uio.resid, sb.acc)
  {
    hide Sockbuf.Valid, Cells, InOrder, Space, Filled, Streaming, Arrived, Stream, Again, Moved, Delivered, Plain,
         Solid, Onward, ReadyPrefix;
    ghost var q0, iov0, solid := sb.Contents(), uio.iov, Solid(sb.view);
    last, used, n := call, 0, 0;
    NoTurns(script);
    StreamStarts(q0, uio.iov, uio.resid);
    if uio.resid == 0 { return Done(EINVAL), last, used, n; }
    if !call.connected { return Done(ENOTCONN), last, used, n; }
    hide Whole, Going, Over;
    var over, i: nat, now := false, 0, call;
    outcome := Waiting;
    CallStarts(sb, uio, call, script);
    while !over
      invariant i == used && last == now && sb.Valid() && uio.Valid() && i <= |script|
      invariant Streaming(q0, Stream(script[..used]), sb.Contents(), n, iov0, uio.iov, call.resid, uio.resid)
      invariant if over then Over(call, script, q0, solid, outcome, last, used, n, uio.resid, sb.acc)
                else Going(sb, uio, call, script, i, n, now, solid, q0, iov0)
      invariant forall i :: 0 <= i < |sb.chain| ==> sb.chain[i] in old(sb.chain) || fresh(sb.chain[i])
      decreases !over, uio.resid, |script| - i
    {
      over, outcome, i, now, n := Round(sb, uio, call, script, i, now, n, solid, q0, iov0);
      last, used := now, i;
    }
  }

  lemma {:induction false} CallStarts(sb: Sockbuf, uio: Uio, call: Call, script: seq<Turn>)
    requires sb.Valid() && uio.Valid() && 0 < uio.resid <= Space(uio.iov) && call.resid == uio.resid && call.hiwat > 0
    requires call.connected
    ensures Going(sb, uio, call, script, 0, 0, call, Solid(sb.view), sb.Contents(), uio.iov)
  {
    hide Sockbuf.Valid, Cells, InOrder, Space, Stream, Onward, Streaming;
    NoTurns(script);
    StreamStarts(sb.Contents(), uio.iov, uio.resid);
  }

  // ---- How much a call delivers ----

  /** n is all that was ready after the first g turns, as far as it was asked for. */
  ghost predicate AllReady(call: Call, script: seq<Turn>, q0: seq<Cell>, used: nat, n: nat, g: nat) {
    g <= used <= |script| && n == Min(call.resid, ReadyPrefix(q0 + Stream(script[..g])))
  }

  lemma {:induction false} ReadyPrefixOn(q: seq<Cell>, k: nat)
    requires k <= |q| && forall i :: 0 <= i < k ==> q[i].ready
    ensures ReadyPrefix(q) == k + ReadyPrefix(q[k..])
  {
    if k == 0 {
      assert q[0..] == q;
    } else {
      assert q[1..][k - 1..] == q[k..];
      ReadyPrefixOn(q[1..], k - 1);
    }
  }

  lemma {:induction false} TakesReady(s: seq<Cell>, k: nat, resid: nat)
    requires k <= |s| && k <= resid && forall i :: 0 <= i < k ==> s[i].ready
    ensures var m := k + Min(resid - k, ReadyPrefix(s[k..]));
            m == Min(resid, ReadyPrefix(s)) && m <= |s| && forall i :: 0 <= i < m ==> s[i].ready
  {
    hide ReadyPrefix;
    ReadyPrefixOn(s, k);
    ReadyPrefixFits(s);
  }

  lemma {:induction false} OnwardGives(call: Call, script: seq<Turn>, q0: seq<Cell>, i: nat, k: nat, last: Call)
    requires i <= |script| && k < call.resid && k <= |q0 + Stream(script[..i])|
    requires (forall j :: 0 <= j < k ==> (q0 + Stream(script[..i]))[j].ready) && last.hiwat > 0 && last.connected
    requires k == 0 || exists g :: AllReady(call, script, q0, i, k, g)
    ensures var r := Onward(call, script, q0, i, k, last);
            r.n == 0 || exists g :: AllReady(call, script, q0, r.used, r.n, g)
    decreases call.resid - k, |script| - i
  {
    hide Stream, Again, Onward, ReadyPrefix;
    var s := q0 + Stream(script[..i]);
    var avail := ReadyPrefix(s[k..]);
    var v, j := Again(last, call.resid - k, avail, k > 0), if i < |script| then i + 1 else i;
    var m := k + Min(call.resid - k, avail);
    Verdicts(last, call.resid - k, avail, k > 0);
    OnwardStep(call, script, q0, i, k, last, avail);
    StreamLonger(script, q0, i);
    if k > 0 {
      var g :| AllReady(call, script, q0, i, k, g);
      assert i < |script| ==> AllReady(call, script, q0, i + 1, k, g);
    }
    if v.Wait? && i < |script| && script[i].error == 0 {
      OnwardGives(call, script, q0, i + 1, k, After(last, script, i));
    } else if v.Give? {
      TakesReady(s, k, call.resid);
      assert AllReady(call, script, q0, j, m, i);
      if call.waitall && m < call.resid { OnwardGives(call, script, q0, j, m, After(last, script, i)); }
    }
  }

  /** A call that delivers anything delivers all that was ready when its last copy began, or as much
      of it as it was asked for. */
  lemma {:induction false} CallGivesAll(call: Call, script: seq<Turn>, q0: seq<Cell>)
    requires call.hiwat > 0
    ensures var r := Whole(call, script, q0); r.n == 0 || exists g :: AllReady(call, script, q0, r.used, r.n, g)
  {
    hide Onward, AllReady;
    if call.resid > 0 && call.connected { OnwardGives(call, script, q0, 0, 0, call); }
  }

  // ---- MSG_PEEK with MSG_WAITALL ----

  /** A look ahead that is given less than it has room for is given the same again: what let it through
      the first time lets it through the second. */
  lemma {:induction false} PeekAgain(c: Call, avail: nat)
    requires c.waitall && Decide(c, avail) == Give && avail < c.resid
    ensures Decide(c.(resid := c.resid - avail), avail) == Give
  {
  }

  /** d over and over, n bytes in all. */
  function Cycled(d: seq<byte>, n: nat): (r: seq<byte>)
    requires d != []
    ensures |r| == n
    ensures n > |d| ==> r[..|d|] == d && r[|d|] == d[0]
    decreases n
  {
    if n <= |d| then d[..n] else d + Cycled(d, n - |d|)
  }

  /** One pass of the look ahead: the same bytes of the buffer, from its front. */
  method Peek(sb: Sockbuf, uio: Uio)
    requires sb.Valid() && uio.Valid() && 0 < sb.acc && 0 < uio.resid <= Space(uio.iov)
    modifies sb, sb.chain, uio
    ensures sb.Valid() && uio.Valid() && sb.chain == old(sb.chain) && sb.view == old(sb.view)
    ensures sb.acc == old(sb.acc) <= |sb.Contents()|
    ensures var d := Plain(sb.Contents())[..sb.acc]; var n := Min(old(uio.resid), sb.acc);
            && Filled(uio.iov) == old(Filled(uio.iov)) + d[..n] && uio.resid == old(uio.resid) - n
            && uio.resid <= Space(uio.iov)
  {
    hide Sockbuf.Valid, Cells, InOrder, Space, Filled, Available, Arrived;
    Readable(sb);
    var error, t;
    ghost var n, q := 0, sb.Contents();
    error, n, t := Deliver(sb, uio, true, []);
    Readable(sb);
    assert Plain(q)[..sb.acc][..n] == Plain(q)[..n];
  }

  /** A call with MSG_PEEK and MSG_WAITALL on a buffer that nobody changes: the vectors are filled, if
      need be with the available bytes over and over. */
  method PeekCall(sb: Sockbuf, uio: Uio, call: Call)
    requires sb.Valid() && uio.Valid() && uio.resid <= Space(uio.iov) && call.resid == uio.resid && call.hiwat > 0
    requires call.waitall && Decide(call, sb.acc) == Give
    modifies sb, sb.chain, uio
    ensures sb.Valid() && uio.Valid() && sb.chain == old(sb.chain) && sb.view == old(sb.view) && uio.resid == 0
    ensures 0 < old(sb.acc) <= |old(sb.Contents())|
    ensures Filled(uio.iov) == old(Filled(uio.iov)) + Cycled(Plain(old(sb.Contents()))[..old(sb.acc)], old(uio.resid))
  {
    hide Sockbuf.Valid, Cells, InOrder, Space, Filled, Decide, Cycled, Plain, Available, Linked, Shows, Total;
    GivesSomething(call, sb.acc);
    Readable(sb);
    ghost var d, f, r := Plain(sb.Contents())[..sb.acc], Filled(uio.iov), uio.resid;
    while uio.resid > 0
      invariant sb.Valid() && uio.Valid() && sb.chain == old(sb.chain) && sb.view == old(sb.view)
      invariant sb.acc == old(sb.acc)
      invariant uio.resid <= Space(uio.iov) && (uio.resid > 0 ==> Decide(call.(resid := uio.resid), sb.acc) == Give)
      invariant Filled(uio.iov) + Cycled(d, uio.resid) == f + Cycled(d, r)
      decreases uio.resid
    {
      ghost var f1, r1 := Filled(uio.iov), uio.resid;
      if sb.acc < uio.resid { PeekAgain(call.(resid := uio.resid), sb.acc); }
      Peek(sb, uio);
      CycledStep(d, f1, r1);
    }
    assert Cycled(d, 0) == [];
  }

  lemma {:induction false} CycledStep(d: seq<byte>, f: seq<byte>, r: nat)
    requires d != [] && r > 0
    ensures var n := Min(r, |d|); f + d[..n] + Cycled(d, r - n) == f + Cycled(d, r)
  {
    if r > |d| { assert d[..|d|] == d; }
  }
}
