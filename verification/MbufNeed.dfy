/** How many clusters m_unshare takes: a function of the chain as it is before the call. */
module MbufNeed {
  import opened Basics
  import opened MbufMem
  import opened MbufChains
  import opened MbufPool

  /** The mbufs that n bytes need when none holds more than a cluster, and the room left in the last. */
  function Pieces(n: nat): nat { if n <= MCLBYTES then 1 else 1 + Pieces(n - MCLBYTES) }

  function LastRoom(n: nat): nat { if n <= MCLBYTES then MCLBYTES - n else LastRoom(n - MCLBYTES) }

  /** Nobody else uses the storage of x, and a cluster of x is not read-only. */
  ghost predicate Own(mem: Mem, x: Id) {
    && x in mem.mbufs && FitsIn(mem.mbufs[x], mem.stores) && mem.stores[mem.mbufs[x].store].refs == 1
    && (mem.stores[mem.mbufs[x].store].ext ==> !mem.mbufs[x].rdonly)
  }

  // ---- The need ----

  /** How many of the first t mbufs use data area s. */
  ghost function UsersBefore(mem: Mem, c: seq<Id>, t: nat, s: Sid): nat
    requires t <= |c|
  {
    if t == 0 then 0
    else UsersBefore(mem, c, t - 1, s) + if c[t - 1] in mem.mbufs && mem.mbufs[c[t - 1]].store == s then 1 else 0
  }

  /** Mbuf t has its storage to itself once those in front of it that share it are released. */
  ghost predicate OwnThen(mem: Mem, c: seq<Id>, t: nat)
    requires t < |c|
  {
    && c[t] in mem.mbufs && FitsIn(mem.mbufs[c[t]], mem.stores)
    && var s := mem.mbufs[c[t]].store;
       && mem.stores[s].refs == 1 + UsersBefore(mem, c, t, s)
       && (mem.stores[s].ext ==> !mem.mbufs[c[t]].rdonly)
  }

  /** The room behind the bytes of x, whoever may write there. */
  ghost function Space(mem: Mem, x: Id): nat {
    if x in mem.mbufs && FitsIn(mem.mbufs[x], mem.stores)
    then |mem.stores[mem.mbufs[x].store].bytes| - mem.mbufs[x].off - mem.mbufs[x].len else 0
  }

  /** The clusters that the mbufs from t on take, when the one before is a cluster with this much room,
      or none: an mbuf that cannot stay goes into that room, or into clusters of its own. */
  ghost function Need(mem: Mem, c: seq<Id>, t: nat, room: Option<nat>): nat
    requires t <= |c|
    decreases |c| - t
  {
    if t == |c| then 0 else
      var x, n := c[t], Len(mem, c[t]);
      if (!Ext(mem, x) || !OwnThen(mem, c, t)) && room.Some? && n <= room.value
      then Need(mem, c, t + 1, Some(room.value - n))
      else if Ext(mem, x) && !OwnThen(mem, c, t) then Pieces(n) + Need(mem, c, t + 1, Some(LastRoom(n)))
      else Need(mem, c, t + 1, if Ext(mem, x) then Some(Space(mem, x)) else None)
  }

  /** At most what the copies of all mbufs that cannot stay would take. */
  ghost function CopySum(mem: Mem, c: seq<Id>, t: nat): nat
    requires t <= |c|
    decreases |c| - t
  {
    if t == |c| then 0
    else CopySum(mem, c, t + 1) + if Ext(mem, c[t]) && !OwnThen(mem, c, t) then Pieces(Len(mem, c[t])) else 0
  }

  lemma {:induction false} NeedBound(mem: Mem, c: seq<Id>, t: nat, room: Option<nat>)
    requires t <= |c|
    ensures Need(mem, c, t, room) <= CopySum(mem, c, t)
    decreases |c| - t
  {
    hide Ext, OwnThen, Pieces, LastRoom, Space, Len;
    if t < |c| {
      var x, n := c[t], Len(mem, c[t]);
      if (!Ext(mem, x) || !OwnThen(mem, c, t)) && room.Some? && n <= room.value {
        NeedBound(mem, c, t + 1, Some(room.value - n));
      } else if Ext(mem, x) && !OwnThen(mem, c, t) {
        NeedBound(mem, c, t + 1, Some(LastRoom(n)));
      } else {
        NeedBound(mem, c, t + 1, if Ext(mem, x) then Some(Space(mem, x)) else None);
      }
    }
  }

  // ---- What a step leaves of the mbufs behind it ----

  /** x is as it was, but drop users of its data area are gone. */
  ghost predicate Carried(mem: Mem, mem': Mem, x: Id, drop: nat) {
    && x in mem.mbufs && x in mem'.mbufs && mem'.mbufs[x] == mem.mbufs[x]
    && var s := mem.mbufs[x].store;
       && s in mem.stores && s in mem'.stores && |mem'.stores[s].bytes| == |mem.stores[s].bytes|
       && mem'.stores[s].ext == mem.stores[s].ext && mem'.stores[s].refs + drop == mem.stores[s].refs
  }

  lemma {:induction false} CarriedTrans(mem: Mem, mem1: Mem, mem2: Mem, x: Id, a: nat, b: nat)
    requires Carried(mem, mem1, x, a) && Carried(mem1, mem2, x, b)
    ensures Carried(mem, mem2, x, a + b)
  {
  }

  lemma {:induction false} CarriedNext(mem: Mem, i: Id, next: Option<Id>, x: Id)
    requires Ok(mem) && i in mem.mbufs && x in mem.mbufs && x != i
    ensures Carried(mem, SetNext(mem, i, next), x, 0)
  {
    FitsOf(mem, x);
  }

  lemma {:induction false} CarriedExtend(mem: Mem, i: Id, d: seq<byte>, x: Id)
    requires Ok(mem) && i in mem.mbufs && x in mem.mbufs && x != i && FitsIn(mem.mbufs[i], mem.stores)
    requires mem.mbufs[i].off + mem.mbufs[i].len + |d| <= |mem.stores[mem.mbufs[i].store].bytes|
    ensures Carried(mem, Extend(mem, i, d), x, 0)
  {
    FitsOf(mem, x);
  }

  lemma {:induction false} CarriedFree(mem: Mem, m: Id, x: Id)
    requires Ok(mem) && m in mem.mbufs && x in mem.mbufs && x != m
    ensures Carried(mem, FreeOne(mem, m), x, if mem.mbufs[m].store == mem.mbufs[x].store then 1 else 0)
  {
    FitsOf(mem, x);
    FitsOf(mem, m);
    if mem.mbufs[m].store == mem.mbufs[x].store && mem.stores[mem.mbufs[x].store].refs <= 1 {
      assert Counted(mem, mem.mbufs[x].store);
      OnlyUser(mem, x, m);
    }
  }

  /** Everyone is as before. */
  ghost predicate Carrying(mem: Mem, mem': Mem) { forall x :: x in mem.mbufs ==> Carried(mem, mem', x, 0) }

  /** The mbufs s are as they were, and m, which used this data area, is gone. */
  ghost predicate Without1(mem: Mem, mem': Mem, s: seq<Id>, m: Id) {
    && m in mem.mbufs
    && forall x :: x in s ==>
         x in mem.mbufs && Carried(mem, mem', x, if mem.mbufs[m].store == mem.mbufs[x].store then 1 else 0)
  }

  lemma {:induction false} PieceFacts(mem0: Mem, mem: Mem, i: Id, room: nat, d: seq<byte>)
    requires Ok(mem0) && NewOne(mem0, mem, i, room) && |d| <= room && FitsIn(mem.mbufs[i], mem.stores)
    requires mem.mbufs[i].off + mem.mbufs[i].len + |d| <= |mem.stores[mem.mbufs[i].store].bytes|
    ensures Carrying(mem0, Extend(mem, i, d)) && (Ext(Extend(mem, i, d), i) <==> Ext(mem, i))
    ensures Trailing(Extend(mem, i, d), i) == room - |d|
  {
    RoomLeft(mem0, mem, i, room, d);
    hide Ok, Extend, Ext, Trailing;
    forall x | x in mem0.mbufs ensures Carried(mem0, Extend(mem, i, d), x, 0) {
      FitsOf(mem0, x);
      UntouchedAt(mem0, mem, {}, x);
      CarriedExtend(mem, i, d, x);
      assert Carried(mem0, mem, x, 0);
      CarriedTrans(mem0, mem, Extend(mem, i, d), x, 0, 0);
    }
    ExtExtend(mem, i, d);
  }

  lemma {:induction false} ExtExtend(mem: Mem, i: Id, d: seq<byte>)
    requires i in mem.mbufs && FitsIn(mem.mbufs[i], mem.stores)
    requires mem.mbufs[i].off + mem.mbufs[i].len + |d| <= |mem.stores[mem.mbufs[i].store].bytes|
    ensures Ext(Extend(mem, i, d), i) <==> Ext(mem, i)
  {
  }

  lemma {:induction false} RoomLeft(mem0: Mem, mem: Mem, i: Id, room: nat, d: seq<byte>)
    requires NewOne(mem0, mem, i, room) && |d| <= room && i in mem.mbufs && FitsIn(mem.mbufs[i], mem.stores)
    requires mem.mbufs[i].off + mem.mbufs[i].len + |d| <= |mem.stores[mem.mbufs[i].store].bytes|
    ensures Trailing(Extend(mem, i, d), i) == room - |d|
  {
    hide Ok, Untouched;
  }

  lemma {:induction false} ExtCarried(mem: Mem, mem': Mem, x: Id, drop: nat)
    requires Carried(mem, mem', x, drop)
    ensures Ext(mem', x) <==> Ext(mem, x)
  {
  }

  lemma {:induction false} RoomNext(mem: Mem, j: Id, next: Option<Id>, x: Id)
    requires j in mem.mbufs
    ensures Trailing(SetNext(mem, j, next), x) == Trailing(mem, x) && (Ext(SetNext(mem, j, next), x) <==> Ext(mem, x))
  {
  }

  lemma {:induction false} CarriedRoom(mem: Mem, mem': Mem, x: Id)
    requires Carried(mem, mem', x, 0)
    ensures Trailing(mem', x) == Trailing(mem, x) && (Ext(mem', x) <==> Ext(mem, x))
  {
  }

  lemma {:induction false} ExtendHeads(mem: Mem, m: Id, n: Id)
    requires AbsorbFits(mem, m, n) && mem.mbufs[m].store != mem.mbufs[n].store && Len(mem, n) <= Trailing(mem, m)
    requires |Bytes(mem, n)| == mem.mbufs[n].len
    ensures var mem1 := Extend(mem, m, Bytes(mem, n));
            && m in mem1.mbufs && n in mem1.mbufs && mem1.mbufs[m].store == mem.mbufs[m].store
            && (Ext(mem1, m) <==> Ext(mem, m)) && Trailing(mem1, m) == Trailing(mem, m) - Len(mem, n)
  {
    hide Bytes;
  }

  /** m takes over n: what that leaves of another mbuf. */
  lemma {:induction false} AbsorbCarries(mem: Mem, m: Id, n: Id, next: Option<Id>, x: Id)
    requires Ok(mem) && AbsorbFits(mem, m, n) && mem.stores[mem.mbufs[m].store].refs == 1
    requires x in mem.mbufs && x != m && x != n
    ensures Carried(mem, Absorb(mem, m, n, next), x, if mem.mbufs[n].store == mem.mbufs[x].store then 1 else 0)
  {
    hide Ok, Extend, SetNext, FreeOne, Bytes, Untouched;
    SliceLength(mem, n);
    OnlyUser(mem, m, n);
    ExtendOk(mem, m, Bytes(mem, n));
    var mem1 := Extend(mem, m, Bytes(mem, n));
    CarriedExtend(mem, m, Bytes(mem, n), x);
    CarriedExtend(mem, m, Bytes(mem, n), n);
    assert m in mem1.mbufs by { ExtendKeeps(mem, m, Bytes(mem, n)); }
    SetNextOk(mem1, m, next);
    var mem2 := SetNext(mem1, m, next);
    CarriedNext(mem1, m, next, x);
    CarriedNext(mem1, m, next, n);
    CarriedTrans(mem, mem1, mem2, x, 0, 0);
    CarriedFree(mem2, n, x);
    CarriedTrans(mem, mem2, FreeOne(mem2, n), x, 0, if mem.mbufs[n].store == mem.mbufs[x].store then 1 else 0);
  }

  lemma {:induction false} ExtendKeeps(mem: Mem, m: Id, d: seq<byte>)
    requires m in mem.mbufs && FitsIn(mem.mbufs[m], mem.stores)
    requires mem.mbufs[m].off + mem.mbufs[m].len + |d| <= |mem.stores[mem.mbufs[m].store].bytes|
    ensures m in Extend(mem, m, d).mbufs && Extend(mem, m, d).mbufs[m].store == mem.mbufs[m].store
  {
  }

  /** And of m. */
  lemma {:induction false} AbsorbTaker(mem: Mem, m: Id, n: Id, next: Option<Id>)
    requires Ok(mem) && AbsorbFits(mem, m, n) && mem.stores[mem.mbufs[m].store].refs == 1
    requires Len(mem, n) <= Trailing(mem, m)
    ensures var mem' := Absorb(mem, m, n, next);
            (Ext(mem', m) <==> Ext(mem, m)) && Trailing(mem', m) == Trailing(mem, m) - Len(mem, n)
  {
    hide Ok, Extend, SetNext, FreeOne, Bytes, Ext, Trailing, Len, Untouched;
    SliceLength(mem, n);
    OnlyUser(mem, m, n);
    ExtendOk(mem, m, Bytes(mem, n));
    var mem1 := Extend(mem, m, Bytes(mem, n));
    ExtendHeads(mem, m, n);
    SetNextOk(mem1, m, next);
    var mem2 := SetNext(mem1, m, next);
    RoomNext(mem1, m, next, m);
    CarriedExtend(mem, m, Bytes(mem, n), n);
    CarriedNext(mem1, m, next, n);
    CarriedFree(mem2, n, m);
    CarriedRoom(mem2, FreeOne(mem2, n), m);
  }

  // ---- Following the chain ----

  /** x, of the mbufs from t on, is as it was at first, and those in front that shared with it are gone. */
  ghost predicate Same(mem0: Mem, mem: Mem, c0: seq<Id>, t: nat, x: Id)
    requires t <= |c0|
  {
    x in mem0.mbufs && Carried(mem0, mem, x, UsersBefore(mem0, c0, t, mem0.mbufs[x].store))
  }

  ghost predicate AllSame(mem0: Mem, mem: Mem, c0: seq<Id>, t: nat)
    requires t <= |c0|
  {
    forall u :: t <= u < |c0| ==> Same(mem0, mem, c0, t, c0[u])
  }

  lemma {:induction false} SameStart(mem: Mem, c: seq<Id>)
    requires Ok(mem) && forall i :: 0 <= i < |c| ==> c[i] in mem.mbufs
    ensures AllSame(mem, mem, c, 0)
  {
    forall u | 0 <= u < |c| ensures Same(mem, mem, c, 0, c[u]) { FitsOf(mem, c[u]); }
  }

  /** The next mbuf has its storage to itself just if the count says so. */
  lemma {:induction false} OwnNow(mem0: Mem, mem: Mem, c0: seq<Id>, t: nat)
    requires Ok(mem0) && Ok(mem) && t < |c0| && AllSame(mem0, mem, c0, t)
    ensures Own(mem, c0[t]) <==> OwnThen(mem0, c0, t)
    ensures Ext(mem, c0[t]) <==> Ext(mem0, c0[t])
    ensures Len(mem, c0[t]) == Len(mem0, c0[t]) && Space(mem, c0[t]) == Space(mem0, c0[t])
  {
    assert Same(mem0, mem, c0, t, c0[t]);
    FitsOf(mem0, c0[t]);
    FitsOf(mem, c0[t]);
  }

  /** It stays: then it shares with none of those behind. */
  lemma {:induction false} SameOn(mem0: Mem, mem: Mem, c0: seq<Id>, t: nat)
    requires Ok(mem) && t < |c0| && AllSame(mem0, mem, c0, t) && Own(mem, c0[t])
    requires forall u :: t < u < |c0| ==> c0[u] != c0[t]
    ensures AllSame(mem0, mem, c0, t + 1)
  {
    hide Ok, Own;
    assert Same(mem0, mem, c0, t, c0[t]);
    forall u | t + 1 <= u < |c0| ensures Same(mem0, mem, c0, t + 1, c0[u]) {
      assert Same(mem0, mem, c0, t, c0[u]);
      OwnAlone(mem, c0[t], c0[u]);
    }
  }

  lemma {:induction false} OwnAlone(mem: Mem, x: Id, y: Id)
    requires Ok(mem) && Own(mem, x) && y in mem.mbufs && y != x
    ensures mem.mbufs[y].store != mem.mbufs[x].store
  {
    OnlyUser(mem, x, y);
  }

  /** It is released. */
  lemma {:induction false} SameOff(mem0: Mem, mem: Mem, mem': Mem, c0: seq<Id>, t: nat)
    requires t < |c0| && AllSame(mem0, mem, c0, t) && Without1(mem, mem', c0[t + 1..], c0[t])
    ensures AllSame(mem0, mem', c0, t + 1)
  {
    assert Same(mem0, mem, c0, t, c0[t]);
    forall u | t + 1 <= u < |c0| ensures Same(mem0, mem', c0, t + 1, c0[u]) {
      assert Same(mem0, mem, c0, t, c0[u]);
      assert c0[u] == c0[t + 1..][u - t - 1];
      assert c0[u] in c0[t + 1..];
      var d := if mem.mbufs[c0[t]].store == mem.mbufs[c0[u]].store then 1 else 0;
      CarriedTrans(mem0, mem, mem', c0[u], UsersBefore(mem0, c0, t, mem0.mbufs[c0[u]].store), d);
    }
  }

  // ---- The account ----

  /** The room in the last of the first e mbufs, if it is a cluster. */
  ghost function RoomAt(mem: Mem, c: seq<Id>, e: nat): Option<nat>
    requires e <= |c|
  {
    if e > 0 && Ext(mem, c[e - 1]) then Some(Trailing(mem, c[e - 1])) else None
  }

  ghost predicate AllExt(mem: Mem, c: seq<Id>, j: nat, e: nat)
    requires e <= |c|
  {
    forall i :: j <= i < e ==> Ext(mem, c[i])
  }

  /** The walk is at mbuf j of c. Those up to e stay; behind them are the mbufs from t on of c0; and the
      clusters taken so far and those still needed are what c0 needs. */
  ghost predicate Tracked(mem0: Mem, mem: Mem, c0: seq<Id>, c: seq<Id>, t: nat, j: nat, e: nat, budget0: nat,
                          budget: nat) {
    && t <= |c0| && j <= e <= |c| && c[e..] == c0[t..] && AllSame(mem0, mem, c0, t) && AllExt(mem, c, j, e)
    && budget <= budget0
    && budget0 - budget + Need(mem0, c0, t, RoomAt(mem, c, e)) == Need(mem0, c0, 0, None)
  }

  lemma {:induction false} TrackedAt(mem0: Mem, mem: Mem, c0: seq<Id>, c: seq<Id>, t: nat, j: nat, e: nat, budget0: nat,
                                     budget: nat)
    requires Tracked(mem0, mem, c0, c, t, j, e, budget0, budget) && Ok(mem0) && Ok(mem)
    ensures j < e ==> Ext(mem, c[j])
    ensures e < |c| <==> t < |c0|
    ensures e < |c| ==> c[e] == c0[t] && c[e + 1..] == c0[t + 1..]
    ensures e < |c| ==> (Own(mem, c[e]) <==> OwnThen(mem0, c0, t)) && (Ext(mem, c[e]) <==> Ext(mem0, c0[t]))
    ensures e < |c| ==> Len(mem, c[e]) == Len(mem0, c0[t]) && Space(mem, c[e]) == Space(mem0, c0[t])
    ensures e < |c| ==> AllSame(mem0, mem, c0, t)
  {
    hide Ok, Own, OwnThen, Ext, Len, Space, Need, AllSame;
    if e < |c| {
      assert c[e..][0] == c[e] && c0[t..][0] == c0[t] && c[e..][1..] == c[e + 1..] && c0[t..][1..] == c0[t + 1..];
      OwnNow(mem0, mem, c0, t);
    }
  }

  /** One more of the clusters that were just filled. */
  lemma {:induction false} TrackPiece(mem0: Mem, mem: Mem, c0: seq<Id>, c: seq<Id>, t: nat, j: nat, e: nat,
                                      budget0: nat, budget: nat)
    requires Tracked(mem0, mem, c0, c, t, j, e, budget0, budget) && j < e
    ensures Tracked(mem0, mem, c0, c, t, j + 1, e, budget0, budget)
  {
    hide Need, AllSame, Ext;
  }

  /** The next mbuf stays. */
  lemma {:induction false} TrackOn(mem0: Mem, mem: Mem, c0: seq<Id>, c: seq<Id>, t: nat, e: nat, budget0: nat,
                                   budget: nat)
    requires Tracked(mem0, mem, c0, c, t, e, e, budget0, budget) && Ok(mem0) && Ok(mem) && e < |c| && Own(mem, c[e])
    requires forall u :: e < u < |c| ==> c[u] != c[e]
    requires !Ext(mem, c[e]) ==> RoomAt(mem, c, e).None? || Len(mem, c[e]) > RoomAt(mem, c, e).value
    ensures Tracked(mem0, mem, c0, c, t + 1, e + 1, e + 1, budget0, budget)
  {
    hide Ok, OwnThen, AllSame, Len;
    TrackedAt(mem0, mem, c0, c, t, e, e, budget0, budget);
    forall u | t < u < |c0| ensures c0[u] != c0[t] {
      assert c0[t..][u - t] == c0[u] && c[e..][u - t] == c[e + (u - t)];
    }
    SameOn(mem0, mem, c0, t);
  }

  /** It goes into the room of the cluster in front. */
  lemma {:induction false} TrackOver(mem0: Mem, mem: Mem, mem': Mem, c0: seq<Id>, c: seq<Id>, c': seq<Id>, t: nat,
                                     e: nat, budget0: nat, budget: nat)
    requires Tracked(mem0, mem, c0, c, t, e, e, budget0, budget) && Ok(mem0) && Ok(mem) && 0 < e < |c|
    requires !Ext(mem, c[e]) || !Own(mem, c[e])
    requires Ext(mem, c[e - 1]) && Len(mem, c[e]) <= Trailing(mem, c[e - 1])
    requires e <= |c'| && c'[e - 1] == c[e - 1] && c'[e..] == c[e + 1..] && Without1(mem, mem', c[e + 1..], c[e])
    requires Ext(mem', c[e - 1]) && Trailing(mem', c[e - 1]) == Trailing(mem, c[e - 1]) - Len(mem, c[e])
    ensures Tracked(mem0, mem', c0, c', t + 1, e, e, budget0, budget)
  {
    hide Ok, OwnThen, AllSame, Len, Ext, Own, Trailing, Without1;
    TrackedAt(mem0, mem, c0, c, t, e, e, budget0, budget);
    SameOff(mem0, mem, mem', c0, t);
  }

  /** It goes into clusters of its own. */
  lemma {:induction false} TrackCopy(mem0: Mem, mem: Mem, mem': Mem, c0: seq<Id>, c: seq<Id>, c': seq<Id>, t: nat,
                                     e: nat, e': nat, budget0: nat, budget: nat)
    requires Tracked(mem0, mem, c0, c, t, e, e, budget0, budget) && Ok(mem0) && Ok(mem) && e < |c|
    requires Ext(mem, c[e]) && !Own(mem, c[e]) && Pieces(Len(mem, c[e])) <= budget
    requires RoomAt(mem, c, e).None? || Len(mem, c[e]) > RoomAt(mem, c, e).value
    requires e < e' <= |c'| && c'[e'..] == c[e + 1..] && Without1(mem, mem', c[e + 1..], c[e])
    requires AllExt(mem', c', e, e') && Trailing(mem', c'[e' - 1]) == LastRoom(Len(mem, c[e]))
    ensures Tracked(mem0, mem', c0, c', t + 1, e + 1, e', budget0, budget - Pieces(Len(mem, c[e])))
  {
    hide Ok, OwnThen, AllSame, Len, Ext, Own, Trailing, Without1, Pieces, LastRoom;
    TrackedAt(mem0, mem, c0, c, t, e, e, budget0, budget);
    SameOff(mem0, mem, mem', c0, t);
    assert Ext(mem', c'[e' - 1]);
  }

  /** There are too few left for that. */
  lemma {:induction false} TrackFails(mem0: Mem, mem: Mem, c0: seq<Id>, c: seq<Id>, t: nat, e: nat, budget0: nat,
                                      budget: nat)
    requires Tracked(mem0, mem, c0, c, t, e, e, budget0, budget) && Ok(mem0) && Ok(mem) && e < |c|
    requires Ext(mem, c[e]) && !Own(mem, c[e]) && Pieces(Len(mem, c[e])) > budget
    requires RoomAt(mem, c, e).None? || Len(mem, c[e]) > RoomAt(mem, c, e).value
    ensures budget0 < Need(mem0, c0, 0, None)
  {
    hide Ok, OwnThen, AllSame, Len, Ext, Own, Trailing, Pieces, LastRoom;
    TrackedAt(mem0, mem, c0, c, t, e, e, budget0, budget);
  }

  lemma {:induction false} TrackEnd(mem0: Mem, mem: Mem, c0: seq<Id>, c: seq<Id>, t: nat, j: nat, e: nat, budget0: nat,
                                    budget: nat)
    requires Tracked(mem0, mem, c0, c, t, j, e, budget0, budget) && e == |c|
    ensures budget0 - budget == Need(mem0, c0, 0, None)
  {
    hide AllSame, AllExt;
    assert |c0[t..]| == |c[e..]|;
  }
}
