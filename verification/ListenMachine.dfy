/** A listening socket and its two queues, as steps that threads take under its lock. */
module ListenMachine {
  import opened Basics

  type Id = nat
  type Tid = nat

  /** so_qstate. */
  datatype QState = NoQueue | Incomplete | Complete

  /** Who will drop, or hand over, the one reference a child is born with. */
  datatype Holder = Nobody | Maker(t: Tid) | Enqueuer(t: Tid) | Queue | Evictor(t: Tid) | Closer(t: Tid) | User

  /** A child: so_count, so_qstate, whether so_listen is set, the protocol's further references, and
      whether it has been freed. */
  datatype Sock = Sock(count: int, qstate: QState, listens: bool, extra: nat, holder: Holder, freed: bool)

  /** The listener: so_count, both queues and their counters, the limit. */
  datatype Listener = Listener(count: int, incomp: seq<Id>, incqlen: int, comp: seq<Id>, qlen: int, limit: nat,
                               closed: bool, freed: bool)

  /** Where a thread is, between taking the listener's lock one time and the next. */
  datatype Pc =
    | Out
    | Cloned(so: Id)
    | Enqueuing(so: Id)
    | Aborting(so: Id, victim: Id)
    | Connecting(so: Id)
    | Closing(left: seq<Id>)

  /** outside counts references to the listener from elsewhere; peak is the largest limit so far. */
  datatype State = State(head: Listener, socks: map<Id, Sock>, pcs: map<Tid, Pc>, outside: nat, peak: nat)

  datatype Act =
    | Clone(t: Tid, so: Id)          // solisten_clone
    | EnqueueComplete(t: Tid)        // solisten_enqueue, connected
    | EnqueueStart(t: Tid)           // solisten_enqueue, not connected: the reference to the listener
    | Evict(t: Tid)                  // its loop: the oldest incomplete child goes
    | AbortVictim(t: Tid)            // soabort of that child
    | Insert(t: Tid)                 // behind its loop
    | Accept                         // solisten_dequeue
    | Promote(so: Id)                // soisconnected, having got the listener's lock at once
    | Defer(t: Tid, so: Id)          // soisconnected, letting go of the child to get it
    | Resume(t: Tid)                 // ... and having got it
    | Close(t: Tid)                  // soclose of the listener
    | AbortNext(t: Tid)              // soabort of the next child it had
    | Ref | Rele                     // references from elsewhere
    | ChildRef(so: Id) | ChildRele(so: Id)
    | UserClose(so: Id)              // soclose of an accepted child
    | SetLimit(limit: nat)           // solisten_proto on a listening socket

  /** In the middle of adding a child. */
  predicate Adds(pc: Pc) { pc.Cloned? || pc.Enqueuing? || pc.Aborting? }

  predicate IsConnecting(pcs: map<Tid, Pc>, so: Id) { exists t :: t in pcs && pcs[t] == Connecting(so) }

  predicate IsAdding(pcs: map<Tid, Pc>) { exists t :: t in pcs && Adds(pcs[t]) }

  /** When a step can be taken. Adding a child does not overlap closing; soisconnected runs once at
      a time for a child, and aborting the child waits for it, as both hold the protocol's lock. */
  ghost predicate Enabled(st: State, a: Act) {
    match a
    case Clone(t, so) => t in st.pcs && st.pcs[t].Out? && so !in st.socks && !st.head.closed
    case EnqueueComplete(t) => t in st.pcs && st.pcs[t].Cloned? && st.pcs[t].so in st.socks
    case EnqueueStart(t) => t in st.pcs && st.pcs[t].Cloned? && st.pcs[t].so in st.socks
    case Evict(t) => t in st.pcs && st.pcs[t].Enqueuing? && st.head.incqlen > st.head.limit
    case AbortVictim(t) =>
      t in st.pcs && st.pcs[t].Aborting? && st.pcs[t].victim in st.socks && !IsConnecting(st.pcs, st.pcs[t].victim)
    case Insert(t) =>
      t in st.pcs && st.pcs[t].Enqueuing? && st.pcs[t].so in st.socks && st.head.incqlen <= st.head.limit
    case Accept => st.head.comp != [] && st.outside > 0
    case Promote(so) => so in st.socks && st.socks[so].qstate.Incomplete? && !IsConnecting(st.pcs, so)
    case Defer(t, so) =>
      t in st.pcs && st.pcs[t].Out? && so in st.socks && st.socks[so].qstate.Incomplete? && !IsConnecting(st.pcs, so)
    case Resume(t) => t in st.pcs && st.pcs[t].Connecting? && st.pcs[t].so in st.socks
    case Close(t) => t in st.pcs && st.pcs[t].Out? && !st.head.closed && st.outside > 0 && !IsAdding(st.pcs)
    case AbortNext(t) =>
      t in st.pcs && st.pcs[t].Closing? && (st.pcs[t].left != [] ==>
        st.pcs[t].left[0] in st.socks && !IsConnecting(st.pcs, st.pcs[t].left[0]))
    case Ref => st.outside > 0
    case Rele => st.outside > 0 && (st.head.closed || st.outside > 1)
    case ChildRef(so) => so in st.socks && st.socks[so].count > 0
    case ChildRele(so) => so in st.socks && st.socks[so].extra > 0
    case UserClose(so) => so in st.socks && st.socks[so].holder.User?
    case SetLimit(limit) => !st.head.closed
  }

  // ---- What the steps do ----

  /** refcount_release on a child, and sofree if that was the last. */
  function Released(s: Sock): Sock { s.(count := s.count - 1, freed := s.freed || s.count == 1) }

  /** sorele on the listener. */
  function HeadReleased(h: Listener): Listener { h.(count := h.count - 1, freed := h.freed || h.count == 1) }

  /** A child leaves its queue, its reference passing to who. */
  function Dropped(s: Sock, who: Holder): Sock { s.(qstate := NoQueue, listens := false, holder := who) }

  function Promoted(st: State, so: Id): State
    requires so in st.socks
  {
    var h := st.head;
    st.(head := h.(incomp := Without(h.incomp, so), incqlen := h.incqlen - 1, comp := h.comp + [so],
                   qlen := h.qlen + 1),
        socks := st.socks[so := st.socks[so].(qstate := Complete)])
  }

  function DroppedAll(socks: map<Id, Sock>, gone: seq<Id>, who: Holder): map<Id, Sock> {
    map so | so in socks :: if so in gone then Dropped(socks[so], who) else socks[so]
  }

  function Closed(st: State, t: Tid): State
    requires st.outside > 0
  {
    var h := st.head;
    var gone := h.incomp + h.comp;
    st.(head := HeadReleased(h.(count := h.count - |gone|, incomp := [], incqlen := 0, comp := [], qlen := 0,
                                closed := true)),
        socks := DroppedAll(st.socks, gone, Closer(t)), pcs := st.pcs[t := Closing(gone)], outside := st.outside - 1)
  }

  function Next(st: State, a: Act): State
    requires Enabled(st, a)
  {
    var h := st.head;
    match a
    case Clone(t, so) =>
      st.(socks := st.socks[so := Sock(0, NoQueue, true, 0, Maker(t), false)], pcs := st.pcs[t := Cloned(so)])
    case EnqueueComplete(t) =>
      var so := st.pcs[t].so;
      st.(head := h.(count := h.count + 1, comp := h.comp + [so], qlen := h.qlen + 1),
          socks := st.socks[so := st.socks[so].(count := 1, qstate := Complete, holder := Queue)],
          pcs := st.pcs[t := Out])
    case EnqueueStart(t) =>
      var so := st.pcs[t].so;
      st.(head := h.(count := h.count + 1),
          socks := st.socks[so := st.socks[so].(count := 1, holder := Enqueuer(t))],
          pcs := st.pcs[t := Enqueuing(so)])
    case Evict(t) =>
      if h.incomp == [] || h.incomp[0] !in st.socks then st else
        var v := h.incomp[0];
        st.(head := HeadReleased(h.(incomp := h.incomp[1..], incqlen := h.incqlen - 1)),
            socks := st.socks[v := Dropped(st.socks[v], Evictor(t))],
            pcs := st.pcs[t := Aborting(st.pcs[t].so, v)])
    case AbortVictim(t) =>
      var v := st.pcs[t].victim;
      st.(socks := st.socks[v := Released(st.socks[v].(holder := Nobody))], pcs := st.pcs[t := Enqueuing(st.pcs[t].so)])
    case Insert(t) =>
      var so := st.pcs[t].so;
      st.(head := h.(incomp := h.incomp + [so], incqlen := h.incqlen + 1),
          socks := st.socks[so := st.socks[so].(qstate := Incomplete, holder := Queue)],
          pcs := st.pcs[t := Out])
    case Accept =>
      var so := h.comp[0];
      if so !in st.socks then st else
        st.(head := HeadReleased(h.(comp := h.comp[1..], qlen := h.qlen - 1)),
            socks := st.socks[so := Dropped(st.socks[so], User)])
    case Promote(so) => Promoted(st, so)
    case Defer(t, so) => st.(head := h.(count := h.count + 1), pcs := st.pcs[t := Connecting(so)])
    case Resume(t) =>
      var so := st.pcs[t].so;
      var st' := st.(head := HeadReleased(h), pcs := st.pcs[t := Out]);
      if st.socks[so].listens then Promoted(st', so) else st'
    case Close(t) => Closed(st, t)
    case AbortNext(t) =>
      var left := st.pcs[t].left;
      if left == [] then st.(pcs := st.pcs[t := Out]) else
        st.(socks := st.socks[left[0] := Released(st.socks[left[0]].(holder := Nobody))],
            pcs := st.pcs[t := Closing(left[1..])])
    case Ref => st.(head := h.(count := h.count + 1), outside := st.outside + 1)
    case Rele => st.(head := HeadReleased(h), outside := st.outside - 1)
    case ChildRef(so) =>
      st.(socks := st.socks[so := st.socks[so].(count := st.socks[so].count + 1, extra := st.socks[so].extra + 1)])
    case ChildRele(so) => st.(socks := st.socks[so := Released(st.socks[so].(extra := st.socks[so].extra - 1))])
    case UserClose(so) => st.(socks := st.socks[so := Released(st.socks[so].(holder := Nobody))])
    case SetLimit(limit) => st.(head := h.(limit := limit), peak := if limit > st.peak then limit else st.peak)
  }

  /** A fresh listener with one reference, and threads that do nothing yet. */
  ghost predicate Init(st: State) {
    && st.head == Listener(1, [], 0, [], 0, st.peak, false, false) && st.socks == map[] && st.outside == 1
    && forall t :: t in st.pcs ==> st.pcs[t].Out?
  }

  ghost predicate Run(sts: seq<State>, acts: seq<Act>) {
    && |sts| == |acts| + 1 && Init(sts[0])
    && forall i :: 0 <= i < |acts| ==> Enabled(sts[i], acts[i]) && sts[i + 1] == Next(sts[i], acts[i])
  }
}
