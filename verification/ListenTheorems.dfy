/** What holds of a listener in every run, and what happens when its callers overlap too freely. */
module ListenTheorems {
  import opened Basics
  import opened ListenMachine
  import opened ListenProofs

  /** Counters, membership and references agree at every point of every run. */
  lemma {:induction false} QueuesAgree(sts: seq<State>, acts: seq<Act>, i: nat, so: Id)
    requires Run(sts, acts) && i < |sts| && so in sts[i].socks
    ensures var h, s := sts[i].head, sts[i].socks[so];
            && h.qlen == |h.comp| && h.incqlen == |h.incomp| && Distinct(h.incomp + h.comp)
            && (so in h.incomp <==> s.qstate.Incomplete?) && (so in h.comp <==> s.qstate.Complete?)
            && (so in h.incomp + h.comp ==> s.listens && s.count == s.extra + 1)
            && h.count == sts[i].outside + |h.incomp| + |h.comp| + |Owing(sts[i].pcs)|
            && (h.freed <==> h.count == 0) && (s.freed ==> s.count == 0 && s.qstate.NoQueue?)
  {
    RunInv(sts, acts, i);
    GoneDistinct(sts[i]);
    SockAt(sts[i].pcs, sts[i].socks, so);
  }

  /** With a limit that stays, the incomplete queue never has more than one child over it. */
  lemma {:induction false} IncompleteIsBounded(sts: seq<State>, acts: seq<Act>, i: nat)
    requires Run(sts, acts) && i < |sts| && forall j :: 0 <= j < i ==> !acts[j].SetLimit?
    ensures sts[i].head.limit == sts[0].head.limit && |sts[i].head.incomp| <= sts[0].head.limit + 1
  {
    RunInv(sts, acts, i);
    LimitStays(sts, acts, i);
  }

  lemma {:induction false} LimitStays(sts: seq<State>, acts: seq<Act>, i: nat)
    requires Run(sts, acts) && i < |sts| && forall j :: 0 <= j < i ==> !acts[j].SetLimit?
    ensures sts[i].head.limit == sts[i].peak == sts[0].head.limit
  {
    if i > 0 {
      LimitStays(sts, acts, i - 1);
      assert sts[i - 1 + 1] == Next(sts[i - 1], acts[i - 1]);
    }
  }

  // ---- The assertions in the code ----

  /** solisten_dequeue: the child it takes is on the complete queue. */
  lemma {:induction false} AcceptsComplete(st: State)
    requires Inv(st) && Enabled(st, Accept)
    ensures st.head.comp[0] in st.socks && st.socks[st.head.comp[0]].qstate.Complete?
  {
    assert st.head.comp[0] in st.head.comp;
  }

  /** soclose: none of the references it drops for queued children is the listener's last. */
  lemma {:induction false} CloseKeepsListener(st: State, t: Tid, n: nat)
    requires Inv(st) && Enabled(st, Close(t)) && n <= |st.head.incomp + st.head.comp|
    ensures st.head.count - n > 0
  {
  }

  /** soisconnected: when the child is still queued, the reference it drops is not the last, and the
      child is on the incomplete queue. */
  lemma {:induction false} ResumeKeepsListener(st: State, t: Tid)
    requires Inv(st) && Enabled(st, Resume(t)) && st.socks[st.pcs[t].so].listens
    ensures st.head.count > 1 && st.pcs[t].so in st.head.incomp
  {
    var so := st.pcs[t].so;
    ThreadAt(st.pcs, st.socks, t);
    SockAt(st.pcs, st.socks, so);
    assert so in st.head.incomp;
    assert t in Owing(st.pcs);
  }

  // ---- Freed once, and never touched again ----

  /** A child that has been freed is the same after every step. */
  lemma {:induction false} FreedChildRests(st: State, a: Act, so: Id)
    requires Inv(st) && Enabled(st, a) && so in st.socks && st.socks[so].freed
    ensures so in Next(st, a).socks && Next(st, a).socks[so] == st.socks[so]
  {
    SockAt(st.pcs, st.socks, so);
    assert so !in st.head.incomp && so !in st.head.comp;
    if a.Evict? { EvictFinds(st, a.t); }
    if a.AbortNext? && st.pcs[a.t].left != [] {
      ThreadAt(st.pcs, st.socks, a.t);
      assert Held(st.socks, st.pcs[a.t].left[0], Closer(a.t));
    }
    if a.EnqueueComplete? || a.EnqueueStart? || a.AbortVictim? || a.Insert? { ThreadAt(st.pcs, st.socks, a.t); }
    if a.Resume? {
      ThreadAt(st.pcs, st.socks, a.t);
      SockAt(st.pcs, st.socks, st.pcs[a.t].so);
    }
    if a.Accept? { AcceptsComplete(st); }
  }

  /** A listener that has been freed has no queue, no reference and no thread that would use it. */
  lemma {:induction false} FreedListenerRests(st: State, a: Act)
    requires Inv(st) && Enabled(st, a) && st.head.freed
    ensures Next(st, a).head == st.head
  {
    assert st.head.closed && |Owing(st.pcs)| == 0;
    assert forall t :: t in st.pcs ==> t !in Owing(st.pcs) && !Adds(st.pcs[t]);
    assert forall so :: so in st.socks ==> !st.socks[so].qstate.Incomplete?;
  }

  /** Once the listener is closed, everyone has let go of it and no thread is under way, it is freed;
      and so is every child that was not accepted and that the protocol does not hold. */
  lemma {:induction false} AllReclaimed(st: State)
    requires Inv(st) && st.head.closed && st.outside == 0 && forall t :: t in st.pcs ==> st.pcs[t].Out?
    ensures st.head.freed
    ensures forall so :: so in st.socks ==> st.socks[so].freed || st.socks[so].extra > 0 || st.socks[so].holder.User?
  {
    assert Owing(st.pcs) == {};
    assert forall so :: so in st.socks ==> st.socks[so].qstate.NoQueue?;
    forall so | so in st.socks ensures st.socks[so].freed || st.socks[so].extra > 0 || st.socks[so].holder.User? {
      SockAt(st.pcs, st.socks, so);
    }
  }

  // ---- Why the callers must not overlap further ----

  /** Were soisconnected called for a child while another call for it waits for the lock, the
      waiting call would take the child off a queue it has left: the counter goes wrong and the
      child is queued twice. */
  lemma {:induction false} SecondConnectBreaks(st: State, t: Tid)
    requires Inv(st) && t in st.pcs && st.pcs[t].Connecting?
    requires st.pcs[t].so in st.socks && st.socks[st.pcs[t].so].qstate.Incomplete?
    ensures var so := st.pcs[t].so; var st1 := Promoted(st, so);
            && Enabled(st1, Resume(t))
            && var h := Next(st1, Resume(t)).head; h.incqlen == |h.incomp| - 1 && h.comp == st.head.comp + [so] + [so]
  {
    var so := st.pcs[t].so;
    SockAt(st.pcs, st.socks, so);
    assert so in st.head.incomp;
    WithoutIs(st.head.incomp, so);
    var rest := Without(st.head.incomp, so);
    WithoutIs(rest, so);
  }

  /** Were the listener closed while a child is being added, the child would end up on the queue of
      a closed listener and keep it from being freed. */
  lemma {:induction false} CloseWhileAddingStrands(st: State, t: Tid, u: Tid)
    requires Inv(st) && t in st.pcs && st.pcs[t].Out? && u in st.pcs && st.pcs[u].Enqueuing? && st.pcs[u].so in st.socks
    requires st.outside == 1
    ensures var so := st.pcs[u].so; var st1 := Closed(st, t);
            && Enabled(st1, Insert(u))
            && var h := Next(st1, Insert(u)).head; h.closed && h.incomp == [so] && h.count > 0 && !h.freed
  {
    ThreadAt(st.pcs, st.socks, u);
    assert u in Owing(st.pcs);
    NotClosed(st, u);
  }
}
