/** What the splice protocol guarantees in every state of every run. */
module SpliceTheorems {
  import opened Basics
  import opened SpliceMachine
  import opened SpliceInvariant
  import opened SpliceFrame
  import opened SpliceSteps

  // ---- One ticket ----

  /** A place where the right to transfer can be: a work-queue entry, a thread that is
      dispatching or transferring, or an entry of a worker's private list. */
  datatype Place = QueueEntry(w: nat, i: nat) | AtThread(t: Tid) | ListEntry(t: Tid, i: nat)

  ghost predicate TicketAt(st: State, p: Place, sp: SpId) {
    match p
    case QueueEntry(w, i) => w in st.queues && i < |st.queues[w]| && st.queues[w][i] == sp
    case AtThread(t) => t in st.thr && CarriesMain(st.thr[t], sp)
    case ListEntry(t, i) => t in st.thr && i < |RestOf(st.thr[t])| && RestOf(st.thr[t])[i] == sp
  }

  lemma TicketSays(st: State, p: Place, sp: SpId)
    requires Safe(st) && TicketAt(st, p, sp)
    ensures Live(st, sp) && Active(st.sps[sp].state)
    ensures st.sps[sp].ticket == if p.QueueEntry? then OnQueue else With(p.t)
    ensures p.QueueEntry? ==> p.w == st.sps[sp].wq && Distinct(st.queues[p.w])
    ensures p.ListEntry? ==> Distinct(RestOf(st.thr[p.t])) && !CarriesMain(st.thr[p.t], sp)
  {
    hide Moves, ThreadsOk, SplicesOk, SocketsOk, QueuesOk;
    match p
    case QueueEntry(w, i) =>
      QueueAt(st, w);
      assert Waiting(st, st.queues[w][i], OnQueue);
    case AtThread(t) =>
      PcAt(st, t);
    case ListEntry(t, i) =>
      PcAt(st, t);
      assert Waiting(st, RestOf(st.thr[t])[i], With(t));
      hide RestOf;
  }

  lemma TicketExists(st: State, sp: SpId) returns (p: Place)
    requires Safe(st) && Live(st, sp) && Active(st.sps[sp].state)
    ensures TicketAt(st, p, sp)
  {
    hide Moves, ThreadsOk, SplicesOk, SocketsOk, QueuesOk, CarriesMain;
    SpAt(st, sp);
    var s := st.sps[sp];
    if s.ticket == OnQueue {
      var i :| 0 <= i < |st.queues[s.wq]| && st.queues[s.wq][i] == sp;
      p := QueueEntry(s.wq, i);
    } else if CarriesMain(st.thr[s.ticket.t], sp) {
      p := AtThread(s.ticket.t);
    } else {
      var rest := RestOf(st.thr[s.ticket.t]);
      var i :| 0 <= i < |rest| && rest[i] == sp;
      p := ListEntry(s.ticket.t, i);
    }
  }

  /** In every interleaving a splice has exactly one transfer ticket outstanding while it is
      queued, running or closing, and none otherwise. */
  lemma OneTicket(run: seq<State>, steps: seq<Step>, i: nat, sp: SpId)
    requires IsRun(run, steps) && i < |run| && sp in run[i].sps
    ensures var s := run[i].sps[sp];
            if s.frees == 0 && Active(s.state)
            then exists p :: TicketAt(run[i], p, sp) && forall r :: TicketAt(run[i], r, sp) ==> r == p
            else forall r :: !TicketAt(run[i], r, sp)
  {
    hide IsRun, Safe, TicketAt;
    SafeRun(run, steps, i);
    var st := run[i];
    forall r | TicketAt(st, r, sp) ensures Live(st, sp) && Active(st.sps[sp].state) {
      TicketSays(st, r, sp);
    }
    if Live(st, sp) && Active(st.sps[sp].state) {
      var p := TicketExists(st, sp);
      forall r | TicketAt(st, r, sp) ensures r == p {
        SamePlace(st, p, r, sp);
      }
    }
  }

  lemma SamePlace(st: State, p: Place, r: Place, sp: SpId)
    requires Safe(st) && TicketAt(st, p, sp) && TicketAt(st, r, sp)
    ensures p == r
  {
    hide Safe, CarriesMain, RestOf;
    TicketSays(st, p, sp);
    TicketSays(st, r, sp);
  }

  // ---- No assertion fails ----

  /** No assertion of the splice code fails in any interleaving: the transfer finds the splice
      queued or closing, set-up finds it initial, the sink points back when it is detached, both
      state switches avoid their unreachable arms, and only a closed splice is freed. */
  lemma NeverPanics(run: seq<State>, steps: seq<Step>, i: nat)
    requires IsRun(run, steps) && i < |run|
    ensures !run[i].panic
  {
    SafeRun(run, steps, i);
  }

  // ---- Reclamation ----

  /** The program point names the splice, so the thread may touch it. */
  ghost predicate Names(pc: Pc, sp: SpId) {
    || sp in RestOf(pc) || MainOf(pc) == Some(sp)
    || (pc.PushGot? && pc.sp == sp) || (pc.PullGot? && pc.sp == sp)
  }

  lemma NamedIsLive(st: State, t: Tid, sp: SpId)
    requires Safe(st) && t in st.thr && Names(st.thr[t], sp)
    ensures Live(st, sp)
  {
    hide Moves, ThreadsOk, SplicesOk, SocketsOk, QueuesOk;
    PcAt(st, t);
    var pc := st.thr[t];
    if sp in RestOf(pc) {
      var i :| 0 <= i < |RestOf(pc)| && RestOf(pc)[i] == sp;
      assert Waiting(st, RestOf(pc)[i], With(t));
    } else if pc.PushGot? || pc.PullGot? {
      SockAt(st, pc.so);
    } else {
      hide RestOf, RestOk;
    }
  }

  /** A splice is unspliced and freed at most once. When it is freed after being published it
      is closed, one caller unspliced it, every reference taken on source and sink has been
      released once, and nothing in the system names it any more. */
  lemma Reclaimed(run: seq<State>, steps: seq<Step>, i: nat, sp: SpId)
    requires IsRun(run, steps) && i < |run| && sp in run[i].sps
    ensures var st, s := run[i], run[i].sps[sp];
            && s.frees <= 1 && s.unsplices <= 1
            && s.srcDropped <= s.srcTaken <= 1 && s.dstDropped <= s.dstTaken <= 1
            && (s.frees == 1 ==>
                  && s.srcDropped == s.srcTaken && s.dstDropped == s.dstTaken && s.unsplices == s.srcTaken
                  && (s.srcTaken == 1 ==> s.state == Closed)
                  && (forall t :: t in st.thr ==> !Names(st.thr[t], sp))
                  && (forall so :: so in st.socks ==> st.socks[so].splice != Some(sp) && st.socks[so].back != Some(sp))
                  && (forall w :: w in st.queues ==> sp !in st.queues[w]))
  {
    hide IsRun, ThreadsOk, SplicesOk, SocketsOk, QueuesOk, Names, PhaseOk, OwnersOk, PointersOk;
    SafeRun(run, steps, i);
    var st := run[i];
    SpAt(st, sp);
    if st.sps[sp].frees == 1 {
      forall t | t in st.thr ensures !Names(st.thr[t], sp) {
        if Names(st.thr[t], sp) { NamedIsLive(st, t, sp); }
      }
      forall so | so in st.socks
        ensures st.socks[so].splice != Some(sp) && st.socks[so].back != Some(sp)
      {
        SockAt(st, so);
      }
      forall w | w in st.queues ensures sp !in st.queues[w] {
        QueueAt(st, w);
        assert forall j :: 0 <= j < |st.queues[w]| ==> Waiting(st, st.queues[w][j], OnQueue);
      }
    }
  }
}
