/** What every step keeps: counters, queue membership and references agree. */
module ListenProofs {
  import opened Basics
  import opened ListenMachine

  /** A child is on the queue its so_qstate names, once. */
  ghost predicate QueuesOk(incomp: seq<Id>, comp: seq<Id>, socks: map<Id, Sock>) {
    && Distinct(incomp) && Distinct(comp)
    && (forall so :: so in incomp <==> so in socks && socks[so].qstate.Incomplete?)
    && (forall so :: so in comp <==> so in socks && socks[so].qstate.Complete?)
  }

  /** Threads that hold a reference to the listener of their own. */
  predicate Owes(pc: Pc) { pc.Enqueuing? || pc.Aborting? || pc.Connecting? }

  ghost function Owing(pcs: map<Tid, Pc>): set<Tid> { set t | t in pcs && Owes(pcs[t]) }

  ghost predicate CountsOk(h: Listener, owing: nat, outside: nat) {
    && h.qlen == |h.comp| && h.incqlen == |h.incomp|
    && h.count == outside + |h.incomp| + |h.comp| + owing
    && (h.freed <==> h.count == 0)
    && (h.closed ==> h.incomp == [] && h.comp == [])
    && (!h.closed ==> outside > 0)
  }

  ghost predicate BoundOk(h: Listener, peak: nat) { |h.incomp| <= peak + 1 && h.limit <= peak }

  /** A child's count, queue state and so_listen say who holds its reference. */
  ghost predicate SockOk(s: Sock) {
    && s.count == s.extra + (if s.holder.Nobody? || s.holder.Maker? then 0 else 1)
    && (s.freed <==> s.holder.Nobody? && s.count == 0)
    && (s.holder.Maker? ==> s.extra == 0)
    && (s.qstate != NoQueue <==> s.holder.Queue?)
    && (s.listens <==> s.holder.Queue? || s.holder.Maker? || s.holder.Enqueuer?)
  }

  ghost predicate SocksOk(socks: map<Id, Sock>) { forall so :: so in socks ==> SockOk(socks[so]) }

  ghost predicate Held(socks: map<Id, Sock>, so: Id, who: Holder) { so in socks && socks[so].holder == who }

  /** A thread holds the children its place in the code says it holds. */
  ghost predicate PcOk(t: Tid, pc: Pc, socks: map<Id, Sock>) {
    match pc
    case Out => true
    case Cloned(so) => Held(socks, so, Maker(t))
    case Enqueuing(so) => Held(socks, so, Enqueuer(t))
    case Aborting(so, v) => Held(socks, so, Enqueuer(t)) && Held(socks, v, Evictor(t))
    case Connecting(so) =>
      so in socks && (socks[so].qstate.Incomplete? || socks[so].holder.Evictor? || socks[so].holder.Closer?)
    case Closing(left) => Distinct(left) && forall i :: 0 <= i < |left| ==> Held(socks, left[i], Closer(t))
  }

  ghost predicate PcsOk(pcs: map<Tid, Pc>, socks: map<Id, Sock>) { forall t :: t in pcs ==> PcOk(t, pcs[t], socks) }

  /** Where a thread must be for it to hold a child. */
  ghost predicate HolderOk(pcs: map<Tid, Pc>, so: Id, s: Sock) {
    match s.holder
    case Nobody => true
    case Queue => true
    case User => true
    case Maker(t) => t in pcs && pcs[t] == Cloned(so)
    case Enqueuer(t) => t in pcs && ((pcs[t].Enqueuing? || pcs[t].Aborting?) && pcs[t].so == so)
    case Evictor(t) => t in pcs && pcs[t].Aborting? && pcs[t].victim == so
    case Closer(t) => t in pcs && pcs[t].Closing? && so in pcs[t].left
  }

  ghost predicate HoldersOk(pcs: map<Tid, Pc>, socks: map<Id, Sock>) {
    forall so :: so in socks ==> HolderOk(pcs, so, socks[so])
  }

  ghost predicate PartsOk(pcs: map<Tid, Pc>, socks: map<Id, Sock>) {
    SocksOk(socks) && PcsOk(pcs, socks) && HoldersOk(pcs, socks)
  }

  /** soisconnected is under way at most once for a child, and nothing is added once closed. */
  ghost predicate Exclusive(pcs: map<Tid, Pc>, closed: bool) {
    && (forall t, u ::
          t in pcs && u in pcs && pcs[t].Connecting? && pcs[u].Connecting? && pcs[t].so == pcs[u].so ==> t == u)
    && (closed ==> forall t :: t in pcs ==> !Adds(pcs[t]))
  }

  ghost predicate Inv(st: State) {
    && QueuesOk(st.head.incomp, st.head.comp, st.socks) && CountsOk(st.head, |Owing(st.pcs)|, st.outside)
    && BoundOk(st.head, st.peak) && PartsOk(st.pcs, st.socks) && Exclusive(st.pcs, st.head.closed)
  }

  lemma {:induction false} InitInv(st: State)
    requires Init(st)
    ensures Inv(st)
  {
    assert Owing(st.pcs) == {};
  }

  // ---- Small facts ----

  /** One thread moves: how many references threads owe. */
  lemma {:induction false} Moves(pcs: map<Tid, Pc>, t: Tid, pc: Pc)
    requires t in pcs
    ensures |Owing(pcs[t := pc])| == |Owing(pcs)| + (if Owes(pc) then 1 else 0) - (if Owes(pcs[t]) then 1 else 0)
  {
    var a, b := Owing(pcs), Owing(pcs[t := pc]);
    assert a - {t} == b - {t};
    SizeBut(a, t);
    SizeBut(b, t);
  }

  lemma {:induction false} SizeBut(a: set<Tid>, t: Tid)
    ensures |a| == |a - {t}| + if t in a then 1 else 0
  {
    if t in a { assert a == a - {t} + {t}; } else { assert a - {t} == a; }
  }

  lemma {:induction false} PushIs(s: seq<Id>, x: Id)
    requires Distinct(s) && x !in s
    ensures Distinct(s + [x]) && forall y :: y in s + [x] <==> y in s || y == x
  {
  }

  lemma {:induction false} PopIs(s: seq<Id>)
    requires Distinct(s) && s != []
    ensures Distinct(s[1..]) && s[0] !in s[1..] && (forall y :: y in s[1..] <==> y in s && y != s[0])
    ensures |s[1..]| == |s| - 1 && forall y :: y in s <==> y == s[0] || y in s[1..]
  {
    assert forall y :: y in s <==> y == s[0] || y in s[1..];
  }

  // ---- One child and one thread change ----

  /** No thread but t holds. */
  predicate Mine(h: Holder, t: Tid) { h.Nobody? || h.Queue? || h.User? || h.t == t }

  predicate ConnectOk(s: Sock) { s.qstate.Incomplete? || s.holder.Evictor? || s.holder.Closer? }

  /** What pc holds besides so, pc' holds too. */
  ghost predicate Keeps(pc: Pc, pc': Pc, so: Id) {
    match pc
    case Out => true
    case Connecting(_) => true
    case Cloned(x) => x == so
    case Enqueuing(x) => x == so || ((pc'.Enqueuing? || pc'.Aborting?) && pc'.so == x)
    case Aborting(x, v) => v == so && (pc'.Enqueuing? || pc'.Aborting?) && pc'.so == x
    case Closing(left) => forall x :: x in left && x != so ==> pc'.Closing? && x in pc'.left
  }

  lemma {:induction false} ChangePcs(pcs: map<Tid, Pc>, socks: map<Id, Sock>, t: Tid, pc': Pc, so: Id, s': Sock)
    requires t in pcs && PcsOk(pcs, socks) && (so in socks ==> Mine(socks[so].holder, t))
    requires PcOk(t, pc', socks[so := s']) && (ConnectOk(s') || !IsConnecting(pcs, so))
    ensures PcsOk(pcs[t := pc'], socks[so := s'])
  {
    forall u | u in pcs && u != t ensures PcOk(u, pcs[u], socks[so := s']) {
      assert PcOk(u, pcs[u], socks);
    }
  }

  lemma {:induction false} ChangeHolders(pcs: map<Tid, Pc>, socks: map<Id, Sock>, t: Tid, pc': Pc, so: Id, s': Sock)
    requires t in pcs && HoldersOk(pcs, socks) && HolderOk(pcs[t := pc'], so, s') && Keeps(pcs[t], pc', so)
    ensures HoldersOk(pcs[t := pc'], socks[so := s'])
  {
    forall x | x in socks && x != so ensures HolderOk(pcs[t := pc'], x, socks[x]) {
      assert HolderOk(pcs, x, socks[x]);
    }
  }

  lemma {:induction false} Change(pcs: map<Tid, Pc>, socks: map<Id, Sock>, t: Tid, pc': Pc, so: Id, s': Sock)
    requires t in pcs && PartsOk(pcs, socks) && SockOk(s') && (so in socks ==> Mine(socks[so].holder, t))
    requires PcOk(t, pc', socks[so := s']) && (ConnectOk(s') || !IsConnecting(pcs, so))
    requires HolderOk(pcs[t := pc'], so, s') && Keeps(pcs[t], pc', so)
    ensures PartsOk(pcs[t := pc'], socks[so := s'])
  {
    ChangePcs(pcs, socks, t, pc', so, s');
    ChangeHolders(pcs, socks, t, pc', so, s');
    hide PcsOk, HoldersOk, SockOk;
  }

  /** Only a thread changes. */
  lemma {:induction false} ChangePc(pcs: map<Tid, Pc>, socks: map<Id, Sock>, t: Tid, pc': Pc)
    requires t in pcs && PartsOk(pcs, socks) && PcOk(t, pc', socks)
    requires (pcs[t].Out? || pcs[t].Connecting? || pcs[t] == Closing([]))
    ensures PartsOk(pcs[t := pc'], socks)
  {
    forall u | u in pcs && u != t ensures PcOk(u, pcs[u], socks) {
    }
    forall x | x in socks ensures HolderOk(pcs[t := pc'], x, socks[x]) {
      assert HolderOk(pcs, x, socks[x]);
    }
  }

  /** Only a child changes, and no thread holds it. */
  lemma {:induction false} ChangeSock(pcs: map<Tid, Pc>, socks: map<Id, Sock>, so: Id, s': Sock)
    requires PartsOk(pcs, socks) && SockOk(s') && so in socks
    requires s'.holder == socks[so].holder || (Free(socks[so].holder) && Free(s'.holder))
    requires ConnectOk(socks[so]) ==> ConnectOk(s') || !IsConnecting(pcs, so)
    ensures PartsOk(pcs, socks[so := s'])
  {
    forall u | u in pcs ensures PcOk(u, pcs[u], socks[so := s']) {
      assert PcOk(u, pcs[u], socks);
    }
    forall x | x in socks ensures HolderOk(pcs, x, socks[so := s'][x]) {
      assert HolderOk(pcs, x, socks[x]);
    }
  }

  predicate Free(h: Holder) { h.Nobody? || h.Queue? || h.User? }

  lemma {:induction false} QueueChange(incomp: seq<Id>, comp: seq<Id>, socks: map<Id, Sock>, incomp': seq<Id>,
                                       comp': seq<Id>, so: Id, s': Sock)
    requires QueuesOk(incomp, comp, socks) && Distinct(incomp') && Distinct(comp')
    requires forall y :: y in incomp' <==> if y == so then s'.qstate.Incomplete? else y in incomp
    requires forall y :: y in comp' <==> if y == so then s'.qstate.Complete? else y in comp
    ensures QueuesOk(incomp', comp', socks[so := s'])
  {
  }

  lemma {:induction false} ExclusiveMove(pcs: map<Tid, Pc>, closed: bool, t: Tid, pc': Pc)
    requires t in pcs && Exclusive(pcs, closed) && (pc'.Connecting? ==> !IsConnecting(pcs, pc'.so))
    requires (closed ==> !Adds(pc'))
    ensures Exclusive(pcs[t := pc'], closed)
  {
  }

  lemma {:induction false} ThreadAt(pcs: map<Tid, Pc>, socks: map<Id, Sock>, t: Tid)
    requires PartsOk(pcs, socks) && t in pcs
    ensures PcOk(t, pcs[t], socks)
  {
  }

  lemma {:induction false} SockAt(pcs: map<Tid, Pc>, socks: map<Id, Sock>, so: Id)
    requires PartsOk(pcs, socks) && so in socks
    ensures SockOk(socks[so]) && HolderOk(pcs, so, socks[so])
  {
  }

  lemma {:induction false} NotQueued(st: State, so: Id)
    requires QueuesOk(st.head.incomp, st.head.comp, st.socks) && (so in st.socks ==> st.socks[so].qstate.NoQueue?)
    ensures so !in st.head.incomp && so !in st.head.comp
  {
  }

  lemma {:induction false} NoConnecting(pcs: map<Tid, Pc>, socks: map<Id, Sock>, so: Id)
    requires PartsOk(pcs, socks) && (so in socks ==> !ConnectOk(socks[so]))
    ensures !IsConnecting(pcs, so)
  {
    forall t | t in pcs ensures pcs[t] != Connecting(so) { assert PcOk(t, pcs[t], socks); }
  }

  // ---- The steps ----

  lemma {:induction false} CloneInv(st: State, t: Tid, so: Id)
    requires Inv(st) && Enabled(st, Clone(t, so))
    ensures Inv(Next(st, Clone(t, so)))
  {
    hide QueuesOk, PartsOk, Exclusive, Owing, IsConnecting;
    var s' := Sock(0, NoQueue, true, 0, Maker(t), false);
    Moves(st.pcs, t, Cloned(so));
    NotQueued(st, so);
    QueueSame(st, so, s');
    NoConnecting(st.pcs, st.socks, so);
    Change(st.pcs, st.socks, t, Cloned(so), so, s');
    ExclusiveMove(st.pcs, st.head.closed, t, Cloned(so));
  }

  lemma {:induction false} QueueSame(st: State, so: Id, s': Sock)
    requires QueuesOk(st.head.incomp, st.head.comp, st.socks)
    requires if so in st.socks then s'.qstate == st.socks[so].qstate else s'.qstate.NoQueue?
    ensures QueuesOk(st.head.incomp, st.head.comp, st.socks[so := s'])
  {
  }

  lemma {:induction false} EnqueueCompleteInv(st: State, t: Tid)
    requires Inv(st) && Enabled(st, EnqueueComplete(t))
    ensures Inv(Next(st, EnqueueComplete(t)))
  {
    hide QueuesOk, PartsOk, Exclusive, Owing, IsConnecting;
    var so := st.pcs[t].so;
    var s' := st.socks[so].(count := 1, qstate := Complete, holder := Queue);
    ThreadAt(st.pcs, st.socks, t);
    SockAt(st.pcs, st.socks, so);
    NotClosed(st, t);
    Moves(st.pcs, t, Out);
    NotQueued(st, so);
    QueuePush(st, so, s', false);
    NoConnecting(st.pcs, st.socks, so);
    Change(st.pcs, st.socks, t, Out, so, s');
    ExclusiveMove(st.pcs, st.head.closed, t, Out);
  }

  lemma {:induction false} NotClosed(st: State, t: Tid)
    requires Exclusive(st.pcs, st.head.closed) && t in st.pcs && Adds(st.pcs[t])
    ensures !st.head.closed
  {
  }

  /** A child comes to the end of a queue. */
  lemma {:induction false} QueuePush(st: State, so: Id, s': Sock, inc: bool)
    requires QueuesOk(st.head.incomp, st.head.comp, st.socks) && so !in st.head.incomp && so !in st.head.comp
    requires s'.qstate == if inc then Incomplete else Complete
    ensures var h := st.head;
            QueuesOk(if inc then h.incomp + [so] else h.incomp, if inc then h.comp else h.comp + [so],
                     st.socks[so := s'])
  {
    var h := st.head;
    PushIs(h.incomp, so);
    PushIs(h.comp, so);
    QueueChange(h.incomp, h.comp, st.socks, if inc then h.incomp + [so] else h.incomp,
                if inc then h.comp else h.comp + [so], so, s');
  }

  lemma {:induction false} EnqueueStartInv(st: State, t: Tid)
    requires Inv(st) && Enabled(st, EnqueueStart(t))
    ensures Inv(Next(st, EnqueueStart(t)))
  {
    hide QueuesOk, PartsOk, Exclusive, Owing, IsConnecting;
    var so := st.pcs[t].so;
    var s' := st.socks[so].(count := 1, holder := Enqueuer(t));
    ThreadAt(st.pcs, st.socks, t);
    SockAt(st.pcs, st.socks, so);
    NotClosed(st, t);
    Moves(st.pcs, t, Enqueuing(so));
    QueueSame(st, so, s');
    NoConnecting(st.pcs, st.socks, so);
    Change(st.pcs, st.socks, t, Enqueuing(so), so, s');
    ExclusiveMove(st.pcs, st.head.closed, t, Enqueuing(so));
  }

  /** TAILQ_FIRST finds a child, and it is one on the incomplete queue. */
  lemma {:induction false} EvictFinds(st: State, t: Tid)
    requires Inv(st) && Enabled(st, Evict(t))
    ensures st.head.incomp != [] && st.head.incomp[0] in st.socks && st.socks[st.head.incomp[0]].qstate.Incomplete?
  {
    assert st.head.incomp[0] in st.head.incomp;
  }

  lemma {:induction false} EvictInv(st: State, t: Tid)
    requires Inv(st) && Enabled(st, Evict(t))
    ensures Inv(Next(st, Evict(t)))
  {
    EvictFinds(st, t);
    hide QueuesOk, PartsOk, Exclusive, Owing, IsConnecting;
    var so, v := st.pcs[t].so, st.head.incomp[0];
    var s' := Dropped(st.socks[v], Evictor(t));
    ThreadAt(st.pcs, st.socks, t);
    SockAt(st.pcs, st.socks, v);
    NotClosed(st, t);
    Moves(st.pcs, t, Aborting(so, v));
    QueuePop(st, s', true);
    Change(st.pcs, st.socks, t, Aborting(so, v), v, s');
    ExclusiveMove(st.pcs, st.head.closed, t, Aborting(so, v));
  }

  /** The first of a queue leaves it. */
  lemma {:induction false} QueuePop(st: State, s': Sock, inc: bool)
    requires QueuesOk(st.head.incomp, st.head.comp, st.socks) && s'.qstate.NoQueue?
    requires (if inc then st.head.incomp else st.head.comp) != []
    ensures var h := st.head;
            if inc then h.incomp[0] in st.socks && QueuesOk(h.incomp[1..], h.comp, st.socks[h.incomp[0] := s'])
            else h.comp[0] in st.socks && QueuesOk(h.incomp, h.comp[1..], st.socks[h.comp[0] := s'])
  {
    var h := st.head;
    if inc {
      PopIs(h.incomp);
      assert h.incomp[0] in h.incomp;
      QueueChange(h.incomp, h.comp, st.socks, h.incomp[1..], h.comp, h.incomp[0], s');
    } else {
      PopIs(h.comp);
      assert h.comp[0] in h.comp;
      QueueChange(h.incomp, h.comp, st.socks, h.incomp, h.comp[1..], h.comp[0], s');
    }
  }

  lemma {:induction false} AbortVictimInv(st: State, t: Tid)
    requires Inv(st) && Enabled(st, AbortVictim(t))
    ensures Inv(Next(st, AbortVictim(t)))
  {
    hide QueuesOk, PartsOk, Exclusive, Owing, IsConnecting;
    var so, v := st.pcs[t].so, st.pcs[t].victim;
    var s' := Released(st.socks[v].(holder := Nobody));
    ThreadAt(st.pcs, st.socks, t);
    SockAt(st.pcs, st.socks, v);
    NotClosed(st, t);
    Moves(st.pcs, t, Enqueuing(so));
    QueueSame(st, v, s');
    Change(st.pcs, st.socks, t, Enqueuing(so), v, s');
    ExclusiveMove(st.pcs, st.head.closed, t, Enqueuing(so));
  }

  lemma {:induction false} InsertInv(st: State, t: Tid)
    requires Inv(st) && Enabled(st, Insert(t))
    ensures Inv(Next(st, Insert(t)))
  {
    hide QueuesOk, PartsOk, Exclusive, Owing, IsConnecting;
    var so := st.pcs[t].so;
    var s' := st.socks[so].(qstate := Incomplete, holder := Queue);
    ThreadAt(st.pcs, st.socks, t);
    SockAt(st.pcs, st.socks, so);
    NotClosed(st, t);
    Moves(st.pcs, t, Out);
    NotQueued(st, so);
    QueuePush(st, so, s', true);
    Change(st.pcs, st.socks, t, Out, so, s');
    ExclusiveMove(st.pcs, st.head.closed, t, Out);
  }

  lemma {:induction false} AcceptInv(st: State)
    requires Inv(st) && Enabled(st, Accept)
    ensures Inv(Next(st, Accept))
  {
    var so := st.head.comp[0];
    assert so in st.head.comp && so in st.socks && st.socks[so].qstate.Complete?;
    hide QueuesOk, PartsOk, Exclusive, Owing, IsConnecting;
    var s' := Dropped(st.socks[so], User);
    SockAt(st.pcs, st.socks, so);
    QueuePop(st, s', false);
    ChangeSock(st.pcs, st.socks, so, s');
  }

  /** A child moves from one queue to the other. */
  lemma {:induction false} QueueMove(st: State, so: Id, s': Sock)
    requires QueuesOk(st.head.incomp, st.head.comp, st.socks) && s'.qstate.Complete?
    requires so in st.socks && st.socks[so].qstate.Incomplete?
    ensures QueuesOk(Without(st.head.incomp, so), st.head.comp + [so], st.socks[so := s'])
    ensures |Without(st.head.incomp, so)| == |st.head.incomp| - 1
  {
    var h := st.head;
    WithoutIs(h.incomp, so);
    PushIs(h.comp, so);
    QueueChange(h.incomp, h.comp, st.socks, Without(h.incomp, so), h.comp + [so], so, s');
  }

  lemma {:induction false} PromotedInv(st: State, so: Id)
    requires Inv(st) && so in st.socks && st.socks[so].qstate.Incomplete? && !IsConnecting(st.pcs, so)
    ensures Inv(Promoted(st, so))
  {
    Unclosed(st, so);
    hide QueuesOk, PartsOk, Exclusive, Owing, IsConnecting;
    var s' := st.socks[so].(qstate := Complete);
    SockAt(st.pcs, st.socks, so);
    QueueMove(st, so, s');
    ChangeSock(st.pcs, st.socks, so, s');
  }

  lemma {:induction false} Unclosed(st: State, so: Id)
    requires Inv(st) && so in st.socks && st.socks[so].qstate.Incomplete?
    ensures !st.head.closed && st.head.incomp != []
  {
    assert so in st.head.incomp;
  }

  lemma {:induction false} DeferInv(st: State, t: Tid, so: Id)
    requires Inv(st) && Enabled(st, Defer(t, so))
    ensures Inv(Next(st, Defer(t, so)))
  {
    Unclosed(st, so);
    hide QueuesOk, PartsOk, Exclusive, Owing, IsConnecting;
    Moves(st.pcs, t, Connecting(so));
    ChangePc(st.pcs, st.socks, t, Connecting(so));
    ExclusiveMove(st.pcs, st.head.closed, t, Connecting(so));
  }

  lemma {:induction false} ResumeInv(st: State, t: Tid)
    requires Inv(st) && Enabled(st, Resume(t))
    ensures Inv(Next(st, Resume(t)))
  {
    hide QueuesOk, PartsOk, Exclusive, Owing, IsConnecting;
    var so := st.pcs[t].so;
    ThreadAt(st.pcs, st.socks, t);
    SockAt(st.pcs, st.socks, so);
    if st.socks[so].listens { Unclosed(st, so); }
    NoLonger(st.pcs, st.head.closed, t);
    Moves(st.pcs, t, Out);
    ChangePc(st.pcs, st.socks, t, Out);
    ExclusiveMove(st.pcs, st.head.closed, t, Out);
    var st' := st.(head := HeadReleased(st.head), pcs := st.pcs[t := Out]);
    assert Inv(st');
    if st.socks[so].listens { PromotedInv(st', so); }
  }

  lemma {:induction false} NoLonger(pcs: map<Tid, Pc>, closed: bool, t: Tid)
    requires Exclusive(pcs, closed) && t in pcs && pcs[t].Connecting?
    ensures !IsConnecting(pcs[t := Out], pcs[t].so)
  {
  }

  lemma {:induction false} AbortNextInv(st: State, t: Tid)
    requires Inv(st) && Enabled(st, AbortNext(t))
    ensures Inv(Next(st, AbortNext(t)))
  {
    hide QueuesOk, PartsOk, Exclusive, Owing, IsConnecting;
    ThreadAt(st.pcs, st.socks, t);
    var left := st.pcs[t].left;
    if left == [] {
      Moves(st.pcs, t, Out);
      ChangePc(st.pcs, st.socks, t, Out);
      ExclusiveMove(st.pcs, st.head.closed, t, Out);
    } else {
      var s' := Released(st.socks[left[0]].(holder := Nobody));
      assert Held(st.socks, left[0], Closer(t));
      SockAt(st.pcs, st.socks, left[0]);
      Moves(st.pcs, t, Closing(left[1..]));
      QueueSame(st, left[0], s');
      StillClosing(st.socks, t, left, s');
      Change(st.pcs, st.socks, t, Closing(left[1..]), left[0], s');
      ExclusiveMove(st.pcs, st.head.closed, t, Closing(left[1..]));
    }
  }

  lemma {:induction false} StillClosing(socks: map<Id, Sock>, t: Tid, left: seq<Id>, s': Sock)
    requires left != [] && PcOk(t, Closing(left), socks)
    ensures PcOk(t, Closing(left[1..]), socks[left[0] := s']) && Keeps(Closing(left), Closing(left[1..]), left[0])
  {
    PopIs(left);
    forall i | 0 <= i < |left| - 1 ensures Held(socks[left[0] := s'], left[1..][i], Closer(t)) {
      assert left[1..][i] == left[i + 1] && Held(socks, left[i + 1], Closer(t));
    }
  }

  lemma {:induction false} ChildInv(st: State, a: Act)
    requires Inv(st) && Enabled(st, a) && (a.ChildRef? || a.ChildRele? || a.UserClose?)
    ensures Inv(Next(st, a))
  {
    hide QueuesOk, PartsOk, Exclusive, Owing, IsConnecting;
    SockAt(st.pcs, st.socks, a.so);
    var s' := Next(st, a).socks[a.so];
    QueueSame(st, a.so, s');
    ChangeSock(st.pcs, st.socks, a.so, s');
  }

  lemma {:induction false} OutsideInv(st: State, a: Act)
    requires Inv(st) && Enabled(st, a) && (a.Ref? || a.Rele? || a.SetLimit?)
    ensures Inv(Next(st, a))
  {
    hide QueuesOk, PartsOk, Exclusive, Owing;
  }

  lemma {:induction false} CloseInv(st: State, t: Tid)
    requires Inv(st) && Enabled(st, Close(t))
    ensures Inv(Next(st, Close(t)))
  {
    var gone := st.head.incomp + st.head.comp;
    GoneDistinct(st);
    CloseParts(st.pcs, st.socks, gone, t);
    CloseQueues(st, t);
    CloseExclusive(st.pcs, t, gone);
    hide QueuesOk, PartsOk, Exclusive, Owing, IsAdding;
    Moves(st.pcs, t, Closing(gone));
  }

  lemma {:induction false} GoneDistinct(st: State)
    requires Inv(st)
    ensures var gone := st.head.incomp + st.head.comp;
            Distinct(gone) && forall so :: so in gone <==> so in st.socks && st.socks[so].holder.Queue?
  {
    var a, b := st.head.incomp, st.head.comp;
    var gone := a + b;
    forall so ensures so in gone <==> so in st.socks && st.socks[so].holder.Queue? {
      if so in st.socks { SockAt(st.pcs, st.socks, so); }
    }
    forall i, j | 0 <= i < j < |gone| ensures gone[i] != gone[j] {
      if i < |a| <= j { assert gone[i] in a && gone[j] in b; }
    }
  }

  lemma {:induction false} CloseQueues(st: State, t: Tid)
    requires QueuesOk(st.head.incomp, st.head.comp, st.socks)
    ensures QueuesOk([], [], DroppedAll(st.socks, st.head.incomp + st.head.comp, Closer(t)))
  {
  }

  lemma {:induction false} CloseParts(pcs: map<Tid, Pc>, socks: map<Id, Sock>, gone: seq<Id>, t: Tid)
    requires PartsOk(pcs, socks) && t in pcs && pcs[t].Out? && Distinct(gone)
    requires forall so :: so in gone <==> so in socks && socks[so].holder.Queue?
    ensures PartsOk(pcs[t := Closing(gone)], DroppedAll(socks, gone, Closer(t)))
  {
    var pcs', socks' := pcs[t := Closing(gone)], DroppedAll(socks, gone, Closer(t));
    forall so | so in socks' ensures SockOk(socks'[so]) && HolderOk(pcs', so, socks'[so]) { SockAt(pcs, socks, so); }
    forall u | u in pcs' ensures PcOk(u, pcs'[u], socks') {
      ThreadAt(pcs, socks, u);
      if u == t {
        forall i | 0 <= i < |gone| ensures Held(socks', gone[i], Closer(t)) { assert gone[i] in gone; }
      }
    }
  }

  lemma {:induction false} CloseExclusive(pcs: map<Tid, Pc>, t: Tid, gone: seq<Id>)
    requires Exclusive(pcs, false) && !IsAdding(pcs) && t in pcs
    ensures Exclusive(pcs[t := Closing(gone)], true)
  {
  }

  /** Every step keeps the invariant. */
  lemma {:induction false} StepInv(st: State, a: Act)
    requires Inv(st) && Enabled(st, a)
    ensures Inv(Next(st, a))
  {
    match a {
      case Clone(t, so) => CloneInv(st, t, so);
      case EnqueueComplete(t) => EnqueueCompleteInv(st, t);
      case EnqueueStart(t) => EnqueueStartInv(st, t);
      case Evict(t) => EvictInv(st, t);
      case AbortVictim(t) => AbortVictimInv(st, t);
      case Insert(t) => InsertInv(st, t);
      case Accept => AcceptInv(st);
      case Promote(so) => PromotedInv(st, so);
      case Defer(t, so) => DeferInv(st, t, so);
      case Resume(t) => ResumeInv(st, t);
      case Close(t) => CloseInv(st, t);
      case AbortNext(t) => AbortNextInv(st, t);
      case Ref => OutsideInv(st, a);
      case Rele => OutsideInv(st, a);
      case ChildRef(so) => ChildInv(st, a);
      case ChildRele(so) => ChildInv(st, a);
      case UserClose(so) => ChildInv(st, a);
      case SetLimit(limit) => OutsideInv(st, a);
    }
  }

  lemma {:induction false} RunInv(sts: seq<State>, acts: seq<Act>, i: nat)
    requires Run(sts, acts) && i < |sts|
    ensures Inv(sts[i])
  {
    if i == 0 { InitInv(sts[0]); } else {
      RunInv(sts, acts, i - 1);
      hide Inv, Enabled, Next, Init;
      StepInv(sts[i - 1], acts[i - 1]);
    }
  }
}
