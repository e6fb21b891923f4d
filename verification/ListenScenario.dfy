/** Runs that show what the protocol's lock and the order of closing are needed for: without either,
    one more step from a state that a run reaches would break the queues. */
module ListenScenario {
  import opened ListenMachine
  import opened ListenProofs
  import opened ListenTheorems

  ghost predicate Reachable(st: State) {
    exists sts, acts :: Run(sts, acts) && sts[|sts| - 1] == st
  }

  lemma {:induction false} Reach(st: State, a: Act)
    requires Reachable(st) && Enabled(st, a)
    ensures Reachable(Next(st, a))
  {
    hide Enabled, Next, Init;
    var sts, acts :| Run(sts, acts) && sts[|sts| - 1] == st;
    var sts', acts' := sts + [Next(st, a)], acts + [a];
    assert Run(sts', acts');
    assert sts'[|sts'| - 1] == Next(st, a);
  }

  lemma {:induction false} ReachableInv(st: State)
    requires Reachable(st)
    ensures Inv(st)
  {
    hide Enabled, Next, Init, Inv;
    var sts, acts :| Run(sts, acts) && sts[|sts| - 1] == st;
    RunInv(sts, acts, |sts| - 1);
  }

  /** Two threads and a fresh listener. */
  ghost function Fresh(limit: nat): State {
    State(Listener(1, [], 0, [], 0, limit, false, false), map[], map[0 := Out, 1 := Out], 1, limit)
  }

  /** Thread 0 has begun to add child so. */
  ghost function Adding(limit: nat, so: Id): State {
    State(Listener(2, [], 0, [], 0, limit, false, false), map[so := Sock(1, NoQueue, true, 0, Enqueuer(0), false)],
          map[0 := Enqueuing(so), 1 := Out], 1, limit)
  }

  /** Thread 0 is done, and thread 1 waits for the listener's lock to move so on. */
  ghost function Waiting(limit: nat, so: Id): State {
    State(Listener(3, [so], 1, [], 0, limit, false, false), map[so := Sock(1, Incomplete, true, 0, Queue, false)],
          map[0 := Out, 1 := Connecting(so)], 1, limit)
  }

  lemma {:induction false} AddingReached(limit: nat, so: Id)
    ensures Reachable(Adding(limit, so))
  {
    var st := Fresh(limit);
    assert Run([st], []) && [st][|[st]| - 1] == st;
    Reach(st, Clone(0, so));
    var st1 := Next(st, Clone(0, so));
    Reach(st1, EnqueueStart(0));
    assert Next(st1, EnqueueStart(0)) == Adding(limit, so);
  }

  lemma {:induction false} WaitingReached(limit: nat, so: Id)
    ensures Reachable(Waiting(limit, so))
  {
    hide Reachable;
    AddingReached(limit, so);
    var st := Adding(limit, so);
    Reach(st, Insert(0));
    var st1 := Next(st, Insert(0));
    Reach(st1, Defer(1, so));
    assert Next(st1, Defer(1, so)) == Waiting(limit, so);
  }

  /** Whatever the limit and the child, a run leads to a state from which a second soisconnected of the
      child, let in, leaves the counter off by one and the child queued twice. */
  lemma {:induction false} SecondConnectCanBreak(limit: nat, so: Id) returns (st: State)
    ensures Reachable(st) && 1 in st.pcs && st.pcs[1] == Connecting(so) && so in st.socks
    ensures Enabled(Promoted(st, so), Resume(1))
    ensures var h := Next(Promoted(st, so), Resume(1)).head; h.incqlen != |h.incomp| && h.comp == [so, so]
  {
    hide Reachable, Inv;
    st := Waiting(limit, so);
    WaitingReached(limit, so);
    ReachableInv(st);
    SecondConnectBreaks(st, 1);
  }

  /** Whatever the limit and the child, a run leads to a state from which closing the listener, let in,
      leaves the child on the queue of a closed listener, which is then held by it. */
  lemma {:induction false} CloseCanStrand(limit: nat, so: Id) returns (st: State)
    ensures Reachable(st) && 0 in st.pcs && st.pcs[0] == Enqueuing(so) && so in st.socks && st.outside > 0
    ensures Enabled(Closed(st, 1), Insert(0))
    ensures var h := Next(Closed(st, 1), Insert(0)).head; h.closed && h.incomp == [so] && h.count > 0 && !h.freed
  {
    hide Reachable, Inv;
    st := Adding(limit, so);
    AddingReached(limit, so);
    ReachableInv(st);
    CloseWhileAddingStrands(st, 1, 0);
  }
}
