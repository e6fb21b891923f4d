/** Where the reference count of a cluster lives, and what becomes of the mbuf headers. The count is
    embedded in the header that got the cluster first; headers that share it later point there. */
module MbufRefs {

  type Hid = nat
  type Cid = nat

  datatype Zone = Mbufs | Packs

  datatype ExtType = Packet | Cluster

  /** Embedded is EXT_FLAG_EMBREF with ext_count, Shadow is ext_cnt pointing into owner. */
  datatype Ext = NoExt | Embedded(clust: Cid, count: nat) | Shadow(clust: Cid, owner: Hid)

  /** Lost: m_free was called on it, and it went to no zone. */
  datatype Where = InUse | Lost | Back(zone: Zone)

  /** home is the zone the header came from. */
  datatype Hdr = Hdr(home: Zone, kind: ExtType, ext: Ext, where: Where)

  /** clusts says how often each cluster of its own went back to zone_clust. A packet's cluster is part
      of the item that holds its header. broken is set when a count is reached through a header that
      holds none, or that is back in a zone. */
  datatype State = State(hdrs: map<Hid, Hdr>, clusts: map<Cid, nat>, broken: bool)

  function Owner(st: State, h: Hid): Hid
    requires h in st.hdrs
  {
    if st.hdrs[h].ext.Shadow? then st.hdrs[h].ext.owner else h
  }

  // ---- What the operations do ----

  /** m_get and m_getcl. */
  function Got(st: State, h: Hid): State { st.(hdrs := st.hdrs[h := Hdr(Mbufs, Cluster, NoExt, InUse)]) }

  function GotPacket(st: State, h: Hid, c: Cid): State {
    st.(hdrs := st.hdrs[h := Hdr(Packs, Packet, Embedded(c, 1), InUse)])
  }

  predicate CanClget(st: State, h: Hid, c: Cid) {
    h in st.hdrs && st.hdrs[h].where.InUse? && st.hdrs[h].ext.NoExt? && c !in Clusters(st)
  }

  function Clget(st: State, h: Hid, c: Cid): State
    requires h in st.hdrs
  {
    st.(hdrs := st.hdrs[h := st.hdrs[h].(kind := Cluster, ext := Embedded(c, 1))], clusts := st.clusts[c := 0])
  }

  /** The count that h uses can be reached. */
  predicate Reached(st: State, h: Hid)
    requires h in st.hdrs
  {
    var o := Owner(st, h);
    o in st.hdrs && st.hdrs[o].ext.Embedded? && st.hdrs[o].ext.count > 0 && !st.hdrs[o].where.Back?
  }

  predicate CanDup(st: State, n: Hid, m: Hid) {
    && n in st.hdrs && st.hdrs[n].where.InUse? && st.hdrs[n].ext.NoExt?
    && m in st.hdrs && st.hdrs[m].where.InUse? && !st.hdrs[m].ext.NoExt? && Reached(st, m)
  }

  function Counted(hdrs: map<Hid, Hdr>, o: Hid, count: nat): map<Hid, Hdr>
    requires o in hdrs && hdrs[o].ext.Embedded?
  {
    hdrs[o := hdrs[o].(ext := hdrs[o].ext.(count := count))]
  }

  function Dup(st: State, n: Hid, m: Hid): State
    requires CanDup(st, n, m)
  {
    var o, a := Owner(st, m), st.hdrs[m];
    var hdrs := st.hdrs[n := st.hdrs[n].(kind := a.kind, ext := Shadow(a.ext.clust, o))];
    st.(hdrs := Counted(hdrs, o, hdrs[o].ext.count + 1))
  }

  predicate CanFree(st: State, h: Hid) {
    h in st.hdrs && st.hdrs[h].where.InUse? && (!st.hdrs[h].ext.NoExt? ==> Reached(st, h))
  }

  function Freed(st: State, h: Hid): State
    requires CanFree(st, h)
  {
    var a, o := st.hdrs[h], Owner(st, h);
    if a.ext.NoExt? then st.(hdrs := st.hdrs[h := a.(where := Back(Mbufs))]) else
      var hdrs := Counted(st.hdrs, o, st.hdrs[o].ext.count - 1);
      if hdrs[o].ext.count > 0 then st.(hdrs := hdrs[h := hdrs[h].(where := Lost)])
      else if a.kind.Packet? then st.(hdrs := hdrs[h := hdrs[h].(where := Back(Packs))])
      else st.(hdrs := hdrs[h := hdrs[h].(where := Back(Mbufs))],
               clusts := st.clusts[a.ext.clust := (if a.ext.clust in st.clusts then st.clusts[a.ext.clust] else 0) + 1])
  }

  function Clusters(st: State): set<Cid> { set h | h in st.hdrs && !st.hdrs[h].ext.NoExt? :: st.hdrs[h].ext.clust }

  /** The headers, changed in place. */
  class Headers {
    var hdrs: map<Hid, Hdr>
    var clusts: map<Cid, nat>

    ghost function Snapshot(): State
      reads this
    {
      State(hdrs, clusts, false)
    }

    /** mb_dupcl: n gets the cluster of m. */
    method MbDupcl(n: Hid, m: Hid)
      requires CanDup(Snapshot(), n, m)
      modifies this
      ensures Snapshot() == Dup(old(Snapshot()), n, m)
    {
      hdrs := hdrs[n := hdrs[n].(kind := hdrs[m].kind, ext := hdrs[m].ext)];
      var o;
      if hdrs[m].ext.Embedded? {
        o := m;
        hdrs := hdrs[n := hdrs[n].(ext := Shadow(hdrs[m].ext.clust, m))];
      } else {
        o := hdrs[m].ext.owner;
      }
      hdrs := hdrs[o := hdrs[o].(ext := hdrs[o].ext.(count := hdrs[o].ext.count + 1))];
    }

    /** m_free and mb_free_ext. */
    method MFree(h: Hid)
      requires CanFree(Snapshot(), h)
      modifies this
      ensures Snapshot() == Freed(old(Snapshot()), h)
    {
      if hdrs[h].ext.NoExt? {
        hdrs := hdrs[h := hdrs[h].(where := Back(Mbufs))];
        return;
      }
      var o := if hdrs[h].ext.Embedded? then h else hdrs[h].ext.owner;
      hdrs := hdrs[o := hdrs[o].(ext := hdrs[o].ext.(count := hdrs[o].ext.count - 1))];
      if hdrs[o].ext.count > 0 {
        hdrs := hdrs[h := hdrs[h].(where := Lost)];
        return;
      }
      if hdrs[h].kind.Packet? {
        hdrs := hdrs[h := hdrs[h].(where := Back(Packs))];
      } else {
        var c := hdrs[h].ext.clust;
        clusts := clusts[c := (if c in clusts then clusts[c] else 0) + 1];
        hdrs := hdrs[h := hdrs[h].(where := Back(Mbufs))];
      }
    }
  }

  // ---- Every run ----

  datatype Op =
    | Get(h: Hid)
    | GetPacket(h: Hid, c: Cid)
    | GetCluster(h: Hid, c: Cid)
    | Share(n: Hid, m: Hid)
    | Free(h: Hid)

  /** Only headers in use are worked on; new headers and clusters are new. */
  predicate Can(st: State, op: Op) {
    match op
    case Get(h) => h !in st.hdrs
    case GetPacket(h, c) => h !in st.hdrs && c !in Clusters(st)
    case GetCluster(h, c) => CanClget(st, h, c)
    case Share(n, m) =>
      && n in st.hdrs && st.hdrs[n].where.InUse? && st.hdrs[n].ext.NoExt?
      && m in st.hdrs && st.hdrs[m].where.InUse? && !st.hdrs[m].ext.NoExt?
    case Free(h) => h in st.hdrs && st.hdrs[h].where.InUse?
  }

  function Next(st: State, op: Op): State
    requires Can(st, op)
  {
    match op
    case Get(h) => Got(st, h)
    case GetPacket(h, c) => GotPacket(st, h, c)
    case GetCluster(h, c) => Clget(st, h, c)
    case Share(n, m) => if Reached(st, m) then Dup(st, n, m) else st.(broken := true)
    case Free(h) => if CanFree(st, h) then Freed(st, h) else st.(broken := true)
  }

  ghost predicate IsRun(run: seq<State>, ops: seq<Op>) {
    && |run| == |ops| + 1 && run[0] == State(map[], map[], false)
    && forall i :: 0 <= i < |ops| ==> Can(run[i], ops[i]) && run[i + 1] == Next(run[i], ops[i])
  }

  // ---- What every step keeps ----

  ghost predicate UserOf(st: State, h: Hid, o: Hid) {
    h in st.hdrs && (h == o || (st.hdrs[h].ext.Shadow? && st.hdrs[h].ext.owner == o))
  }

  /** The users of the count in o, whatever became of them. */
  ghost function Users(st: State, o: Hid): set<Hid> { set h | h in st.hdrs && UserOf(st, h, o) }

  ghost function LiveUsers(st: State, o: Hid): set<Hid> {
    set h | h in st.hdrs && UserOf(st, h, o) && st.hdrs[h].where.InUse?
  }

  ghost predicate HdrOk(st: State, h: Hid)
    requires h in st.hdrs
  {
    var a := st.hdrs[h];
    match a.ext
    case NoExt => a.home == Mbufs && a.where != Lost
    case Shadow(c, o) =>
      && a.home == Mbufs && o in st.hdrs && st.hdrs[o].ext.Embedded? && st.hdrs[o].ext.clust == c
      && st.hdrs[o].kind == a.kind
    case Embedded(c, k) => GroupOk(st, h, c, k) && a.home == if a.kind.Packet? then Packs else Mbufs
  }

  /** The count is the number of users. While there are any, no user's header is back in a zone; then
      one is back and the others are lost. */
  ghost predicate GroupOk(st: State, o: Hid, c: Cid, k: nat)
    requires o in st.hdrs
  {
    && k == |LiveUsers(st, o)| && (if k > 0 then NoneBack(st, o) else exists b :: OnlyBack(st, o, b))
    && (st.hdrs[o].kind.Cluster? ==> c in st.clusts && st.clusts[c] == if k == 0 then 1 else 0)
  }

  ghost predicate NoneBack(st: State, o: Hid) { forall h :: UserOf(st, h, o) ==> !st.hdrs[h].where.Back? }

  ghost predicate OnlyBack(st: State, o: Hid, b: Hid)
    requires o in st.hdrs
  {
    && UserOf(st, b, o) && st.hdrs[b].where == Back(if st.hdrs[o].kind.Packet? then Packs else Mbufs)
    && forall h :: UserOf(st, h, o) && h != b ==> st.hdrs[h].where.Lost?
  }

  ghost predicate Apart(st: State) {
    forall o, p :: o in st.hdrs && p in st.hdrs && st.hdrs[o].ext.Embedded? && st.hdrs[p].ext.Embedded? && o != p ==>
      st.hdrs[o].ext.clust != st.hdrs[p].ext.clust
  }

  ghost predicate Inv(st: State) { !st.broken && Apart(st) && forall h :: h in st.hdrs ==> HdrOk(st, h) }

  /** What the invariant says of a header in use that has a cluster. */
  lemma {:induction false} OwnerFacts(st: State, h: Hid)
    requires Inv(st) && h in st.hdrs && st.hdrs[h].where.InUse? && !st.hdrs[h].ext.NoExt?
    ensures Reached(st, h)
    ensures var o := Owner(st, h); var a := st.hdrs[o];
            && a.kind == st.hdrs[h].kind && a.ext.clust == st.hdrs[h].ext.clust
            && GroupOk(st, o, a.ext.clust, a.ext.count)
            && a.home == (if a.kind.Packet? then Packs else Mbufs) && h in LiveUsers(st, o) && UserOf(st, h, o)
  {
    hide OnlyBack, Apart;
    assert HdrOk(st, h);
    var o := Owner(st, h);
    assert HdrOk(st, o);
    assert h in LiveUsers(st, o);
    assert UserOf(st, o, o);
  }

  lemma {:induction false} At(st: State, h: Hid)
    requires Inv(st) && h in st.hdrs
    ensures HdrOk(st, h)
  {
    hide HdrOk, Apart;
  }

  ghost predicate Same(st: State, st': State, h: Hid) {
    h in st.hdrs && h in st'.hdrs && st'.hdrs[h].where == st.hdrs[h].where
  }

  /** A group none of whose members changes stays right. */
  ghost predicate SameUsers(st: State, st': State, o: Hid) {
    && (forall h :: UserOf(st', h, o) <==> UserOf(st, h, o))
    && forall h :: UserOf(st, h, o) ==> Same(st, st', h)
  }

  lemma {:induction false} SameGroup(st: State, st': State, o: Hid)
    requires o in st.hdrs && o in st'.hdrs && st'.hdrs[o].kind == st.hdrs[o].kind && st.hdrs[o].ext.Embedded?
    requires GroupOk(st, o, st.hdrs[o].ext.clust, st.hdrs[o].ext.count) && SameUsers(st, st', o)
    requires var c := st.hdrs[o].ext.clust; c in st.clusts ==> c in st'.clusts && st'.clusts[c] == st.clusts[c]
    ensures GroupOk(st', o, st.hdrs[o].ext.clust, st.hdrs[o].ext.count)
  {
    hide UserOf;
    assert LiveUsers(st', o) == LiveUsers(st, o) by { SameLive(st, st', o); }
    if st.hdrs[o].ext.count == 0 {
      var b :| OnlyBack(st, o, b);
      assert OnlyBack(st', o, b) by { SameBack(st, st', o, b); }
    }
  }

  lemma {:induction false} SameLive(st: State, st': State, o: Hid)
    requires SameUsers(st, st', o)
    ensures LiveUsers(st', o) == LiveUsers(st, o)
  {
    forall h ensures h in LiveUsers(st', o) <==> h in LiveUsers(st, o) {
      assert UserOf(st', h, o) <==> UserOf(st, h, o);
    }
  }

  lemma {:induction false} SameBack(st: State, st': State, o: Hid, b: Hid)
    requires SameUsers(st, st', o) && o in st.hdrs && o in st'.hdrs && st'.hdrs[o].kind == st.hdrs[o].kind
    requires OnlyBack(st, o, b)
    ensures OnlyBack(st', o, b)
  {
    forall h | UserOf(st', h, o) && h != b ensures st'.hdrs[h].where.Lost? { assert UserOf(st, h, o); }
  }

  // ---- New headers and clusters ----

  /** Only h changes; it is, and was, no shadow. */
  ghost predicate Changes(st: State, st': State, h: Hid) {
    && h in st'.hdrs && (forall x :: x in st'.hdrs <==> x in st.hdrs || x == h)
    && (forall x :: x in st.hdrs && x != h ==> st'.hdrs[x] == st.hdrs[x])
    && (forall c :: c in st.clusts && c in Clusters(st) ==> c in st'.clusts && st'.clusts[c] == st.clusts[c])
    && (h in st.hdrs ==> st.hdrs[h].ext.NoExt?) && !st'.hdrs[h].ext.Shadow?
  }

  lemma {:induction false} OthersOk(st: State, st': State, h: Hid, x: Hid)
    requires Inv(st) && Changes(st, st', h) && x in st.hdrs && x != h
    ensures HdrOk(st', x)
  {
    At(st, x);
    hide Inv, GroupOk;
    if st.hdrs[x].ext.Embedded? {
      assert SameUsers(st, st', x);
      assert st.hdrs[x].ext.clust in Clusters(st);
      SameGroup(st, st', x);
    }
  }

  lemma {:induction false} NobodyElse(st: State, st': State, h: Hid, x: Hid)
    requires Inv(st) && Changes(st, st', h) && UserOf(st', x, h)
    ensures x == h
  {
    if x != h { At(st, x); }
  }

  /** A header with a new cluster is its only user. */
  lemma {:induction false} FirstUser(st: State, st': State, h: Hid)
    requires Inv(st) && Changes(st, st', h)
    requires var a := st'.hdrs[h];
             && a.where.InUse? && a.ext.Embedded? && a.ext.count == 1
             && a.home == (if a.kind.Packet? then Packs else Mbufs)
             && (a.kind.Cluster? ==> a.ext.clust in st'.clusts && st'.clusts[a.ext.clust] == 0)
    ensures HdrOk(st', h)
  {
    hide Inv;
    forall x | UserOf(st', x, h) ensures x == h { NobodyElse(st, st', h, x); }
    assert UserOf(st', h, h);
    assert LiveUsers(st', h) == {h};
    assert NoneBack(st', h);
  }

  lemma {:induction false} StillApart(st: State, st': State, h: Hid)
    requires Inv(st) && Changes(st, st', h) && (st'.hdrs[h].ext.Embedded? ==> st'.hdrs[h].ext.clust !in Clusters(st))
    ensures Apart(st')
  {
    hide HdrOk;
    forall o | o in st.hdrs && st.hdrs[o].ext.Embedded? ensures st.hdrs[o].ext.clust in Clusters(st) { }
  }

  lemma {:induction false} NewOk(st: State, st': State, h: Hid)
    requires Inv(st) && Changes(st, st', h) && HdrOk(st', h) && !st'.broken
    requires st'.hdrs[h].ext.Embedded? ==> st'.hdrs[h].ext.clust !in Clusters(st)
    ensures Inv(st')
  {
    StillApart(st, st', h);
    hide HdrOk, Apart, Clusters;
    forall x | x in st'.hdrs && x != h ensures HdrOk(st', x) { OthersOk(st, st', h, x); }
  }

  // ---- Sharing ----

  lemma {:induction false} ShareInv(st: State, n: Hid, m: Hid)
    requires Inv(st) && CanDup(st, n, m)
    ensures Inv(Dup(st, n, m))
  {
    var o, st' := Owner(st, m), Dup(st, n, m);
    forall x | x in st'.hdrs ensures HdrOk(st', x) {
      hide HdrOk, CanDup, Dup, Apart, Inv;
      if x == o { ShareOwner(st, n, m); } else { ShareOther(st, n, m, x); }
    }
    hide HdrOk;
  }

  lemma {:induction false} ShareOwner(st: State, n: Hid, m: Hid)
    requires Inv(st) && CanDup(st, n, m)
    ensures Owner(st, m) in Dup(st, n, m).hdrs && HdrOk(Dup(st, n, m), Owner(st, m))
  {
    OwnerFacts(st, m);
    hide Inv, HdrOk;
    var o, st' := Owner(st, m), Dup(st, n, m);
    forall x ensures UserOf(st', x, o) <==> UserOf(st, x, o) || x == n { }
    MoreLive(st, st', n, o);
    assert NoneBack(st', o);
    GroupIs(st', o);
  }

  lemma {:induction false} GroupIs(st: State, o: Hid)
    requires o in st.hdrs && st.hdrs[o].ext.Embedded?
    requires st.hdrs[o].home == (if st.hdrs[o].kind.Packet? then Packs else Mbufs)
    ensures HdrOk(st, o) == GroupOk(st, o, st.hdrs[o].ext.clust, st.hdrs[o].ext.count)
  {
  }

  lemma {:induction false} MoreLive(st: State, st': State, n: Hid, o: Hid)
    requires n in st'.hdrs && st'.hdrs[n].where.InUse? && !UserOf(st, n, o)
    requires forall x :: UserOf(st', x, o) <==> UserOf(st, x, o) || x == n
    requires forall x :: UserOf(st, x, o) && x != n ==> Same(st, st', x)
    ensures |LiveUsers(st', o)| == |LiveUsers(st, o)| + 1
  {
    hide UserOf;
    assert LiveUsers(st', o) == LiveUsers(st, o) + {n} by { MoreLiveSet(st, st', n, o); }
  }

  lemma {:induction false} MoreLiveSet(st: State, st': State, n: Hid, o: Hid)
    requires n in st'.hdrs && st'.hdrs[n].where.InUse? && forall x :: UserOf(st', x, o) <==> UserOf(st, x, o) || x == n
    requires forall x :: UserOf(st, x, o) && x != n ==> Same(st, st', x)
    ensures LiveUsers(st', o) == LiveUsers(st, o) + {n}
  {
    forall x ensures x in LiveUsers(st', o) <==> x in LiveUsers(st, o) || x == n {
      assert UserOf(st', x, o) <==> UserOf(st, x, o) || x == n;
    }
  }

  lemma {:induction false} ShareOther(st: State, n: Hid, m: Hid, x: Hid)
    requires Inv(st) && CanDup(st, n, m) && x in st.hdrs && x != Owner(st, m)
    ensures x in Dup(st, n, m).hdrs && HdrOk(Dup(st, n, m), x)
  {
    hide Inv, GroupOk, SameUsers;
    At(st, x);
    OwnerFacts(st, m);
    var o, st' := Owner(st, m), Dup(st, n, m);
    if x != n && st.hdrs[x].ext.Embedded? {
      ShareSame(st, n, m, x);
      SameGroup(st, st', x);
    }
  }

  lemma {:induction false} ShareSame(st: State, n: Hid, m: Hid, x: Hid)
    requires CanDup(st, n, m) && x in st.hdrs && x != Owner(st, m) && st.hdrs[x].ext.Embedded?
    ensures SameUsers(st, Dup(st, n, m), x)
  {
    var st' := Dup(st, n, m);
    assert !UserOf(st, n, x) && !UserOf(st', n, x);
  }

  // ---- Freeing ----

  lemma {:induction false} FreeInv(st: State, h: Hid)
    requires Inv(st) && CanFree(st, h)
    ensures Inv(Freed(st, h))
  {
    var o, st' := Owner(st, h), Freed(st, h);
    forall x | x in st'.hdrs ensures HdrOk(st', x) {
      At(st, h);
      hide CanFree, Apart, Inv, GroupOk;
      if x != o { FreeOther(st, h, x); } else if !st.hdrs[h].ext.NoExt? { FreeOwner(st, h); }
    }
    hide HdrOk;
  }

  lemma {:induction false} FreeOther(st: State, h: Hid, x: Hid)
    requires Inv(st) && CanFree(st, h) && x in st.hdrs && x != Owner(st, h)
    ensures x in Freed(st, h).hdrs && HdrOk(Freed(st, h), x)
  {
    hide Inv, GroupOk, Apart, SameUsers;
    At(st, x);
    if !st.hdrs[h].ext.NoExt? {
      OwnerFacts(st, h);
      ApartAt(st, x, Owner(st, h));
    }
    var st' := Freed(st, h);
    if st.hdrs[x].ext.Embedded? {
      FreeSame(st, h, x);
      SameGroup(st, st', x);
    }
  }

  lemma {:induction false} FreeSame(st: State, h: Hid, x: Hid)
    requires CanFree(st, h) && x in st.hdrs && x != Owner(st, h) && st.hdrs[x].ext.Embedded?
    ensures SameUsers(st, Freed(st, h), x)
  {
    var st' := Freed(st, h);
    assert !UserOf(st, h, x);
    forall y | y in st.hdrs && y != h ensures Same(st, st', y) { }
  }

  lemma {:induction false} ApartAt(st: State, x: Hid, o: Hid)
    requires Inv(st) && x in st.hdrs && o in st.hdrs && x != o
    ensures st.hdrs[x].ext.Embedded? && st.hdrs[o].ext.Embedded? ==> st.hdrs[x].ext.clust != st.hdrs[o].ext.clust
  {
    hide HdrOk;
  }

  lemma {:induction false} FreeOwner(st: State, h: Hid)
    requires Inv(st) && CanFree(st, h) && !st.hdrs[h].ext.NoExt?
    ensures Owner(st, h) in Freed(st, h).hdrs && HdrOk(Freed(st, h), Owner(st, h))
  {
    OwnerFacts(st, h);
    hide Inv, HdrOk, LiveUsers;
    var o, st' := Owner(st, h), Freed(st, h);
    forall x ensures UserOf(st', x, o) <==> UserOf(st, x, o) { }
    LessLive(st, st', h, o);
    if st.hdrs[o].ext.count == 1 {
      LastLive(st, h, o);
      LastBack(st, st', h, o);
    }
    GroupIs(st', o);
  }

  lemma {:induction false} LessLive(st: State, st': State, h: Hid, o: Hid)
    requires h in LiveUsers(st, o) && h in st'.hdrs && !st'.hdrs[h].where.InUse?
    requires forall x :: UserOf(st', x, o) <==> UserOf(st, x, o)
    requires forall x :: UserOf(st, x, o) && x != h ==> Same(st, st', x)
    ensures |LiveUsers(st', o)| == |LiveUsers(st, o)| - 1
  {
    assert LiveUsers(st', o) == LiveUsers(st, o) - {h} by {
      forall x ensures x in LiveUsers(st', o) <==> x in LiveUsers(st, o) && x != h {
        assert UserOf(st', x, o) <==> UserOf(st, x, o);
      }
    }
  }

  /** The last user finds all others gone. */
  lemma {:induction false} LastLive(st: State, h: Hid, o: Hid)
    requires |LiveUsers(st, o)| == 1 && h in LiveUsers(st, o) && NoneBack(st, o)
    ensures forall x :: UserOf(st, x, o) && x != h ==> st.hdrs[x].where.Lost?
  {
    forall x | UserOf(st, x, o) && x != h ensures st.hdrs[x].where.Lost? {
      assert |LiveUsers(st, o) - {h}| == 0;
      assert x !in LiveUsers(st, o) - {h};
    }
  }

  lemma {:induction false} LastBack(st: State, st': State, h: Hid, o: Hid)
    requires o in st'.hdrs && UserOf(st, h, o) && forall x :: UserOf(st', x, o) <==> UserOf(st, x, o)
    requires forall x :: UserOf(st, x, o) && x != h ==> st.hdrs[x].where.Lost? && Same(st, st', x)
    requires h in st'.hdrs && st'.hdrs[h].where == Back(if st'.hdrs[o].kind.Packet? then Packs else Mbufs)
    ensures OnlyBack(st', o, h)
  {
  }

  // ---- Every run ----

  lemma {:induction false} StepInv(st: State, op: Op)
    requires Inv(st) && Can(st, op)
    ensures Inv(Next(st, op))
  {
    match op
    case Get(h) => NewOk(st, Got(st, h), h);
    case GetPacket(h, c) => FirstUser(st, GotPacket(st, h, c), h); NewOk(st, GotPacket(st, h, c), h);
    case GetCluster(h, c) => At(st, h); FirstUser(st, Clget(st, h, c), h); NewOk(st, Clget(st, h, c), h);
    case Share(n, m) => OwnerFacts(st, m); ShareInv(st, n, m);
    case Free(h) =>
      if !st.hdrs[h].ext.NoExt? { OwnerFacts(st, h); }
      FreeInv(st, h);
  }

  lemma {:induction false} RunInv(run: seq<State>, ops: seq<Op>, i: nat)
    requires IsRun(run, ops) && i < |run|
    ensures Inv(run[i])
  {
    if i > 0 {
      hide Can, Next, Inv;
      RunInv(run, ops, i - 1);
      assert run[i - 1 + 1] == Next(run[i - 1], ops[i - 1]);
      StepInv(run[i - 1], ops[i - 1]);
    }
  }

  /** The count a header sees is the number of headers in use that share its cluster, and the header
      that holds the count is in no zone. */
  lemma {:induction false} CountIsUsers(run: seq<State>, ops: seq<Op>, i: nat, h: Hid)
    requires IsRun(run, ops) && i < |run| && h in run[i].hdrs && run[i].hdrs[h].where.InUse?
    requires !run[i].hdrs[h].ext.NoExt?
    ensures !run[i].broken && Reached(run[i], h)
    ensures run[i].hdrs[Owner(run[i], h)].ext.count == |Sharers(run[i], run[i].hdrs[h].ext.clust)|
  {
    hide IsRun, Can, Next;
    RunInv(run, ops, i);
    OwnerFacts(run[i], h);
    SharersAre(run[i], Owner(run[i], h));
  }

  /** The headers in use with cluster c. */
  ghost function Sharers(st: State, c: Cid): set<Hid> {
    set h | h in st.hdrs && st.hdrs[h].where.InUse? && !st.hdrs[h].ext.NoExt? && st.hdrs[h].ext.clust == c
  }

  lemma {:induction false} SharersAre(st: State, o: Hid)
    requires Inv(st) && o in st.hdrs && st.hdrs[o].ext.Embedded?
    ensures Sharers(st, st.hdrs[o].ext.clust) == LiveUsers(st, o)
  {
    hide GroupOk;
    var c := st.hdrs[o].ext.clust;
    forall h ensures h in Sharers(st, c) <==> h in LiveUsers(st, o) {
      if h in st.hdrs {
        At(st, h);
        if st.hdrs[h].ext.Embedded? && h != o { ApartAt(st, h, o); }
        if st.hdrs[h].ext.Shadow? && st.hdrs[h].ext.owner != o { ApartAt(st, st.hdrs[h].ext.owner, o); }
      }
    }
  }

  /** A cluster of its own goes back once, when its last user is freed, and not before. */
  lemma {:induction false} ClusterOnce(run: seq<State>, ops: seq<Op>, i: nat, o: Hid)
    requires IsRun(run, ops) && i < |run| && o in run[i].hdrs && run[i].hdrs[o].ext.Embedded?
    requires run[i].hdrs[o].kind.Cluster?
    ensures var st, c := run[i], run[i].hdrs[o].ext.clust;
            c in st.clusts && st.clusts[c] == if Sharers(st, c) == {} then 1 else 0
  {
    hide IsRun, Can, Next, OnlyBack, NoneBack, Sharers, LiveUsers;
    RunInv(run, ops, i);
    At(run[i], o);
    SharersAre(run[i], o);
  }

  /** Once a cluster's users are all freed, their headers are all back exactly if it was never shared:
      of every other user, the header is lost. */
  lemma {:induction false} HeadersBackIff(run: seq<State>, ops: seq<Op>, i: nat, o: Hid)
    requires IsRun(run, ops) && i < |run| && o in run[i].hdrs && run[i].hdrs[o].ext.Embedded?
    requires Sharers(run[i], run[i].hdrs[o].ext.clust) == {}
    ensures var st := run[i];
            && ((forall h :: UserOf(st, h, o) ==> st.hdrs[h].where.Back?) <==> Users(st, o) == {o})
            && |LostUsers(st, o)| == |Users(st, o)| - 1
  {
    hide IsRun, Can, Next, Sharers;
    RunInv(run, ops, i);
    At(run[i], o);
    SharersAre(run[i], o);
    hide Inv, HdrOk;
    LostAre(run[i], o);
  }

  ghost function LostUsers(st: State, o: Hid): set<Hid> {
    set h | h in st.hdrs && UserOf(st, h, o) && st.hdrs[h].where.Lost?
  }

  lemma {:induction false} LostAre(st: State, o: Hid)
    requires o in st.hdrs && exists b :: OnlyBack(st, o, b)
    ensures (forall h :: UserOf(st, h, o) ==> st.hdrs[h].where.Back?) <==> Users(st, o) == {o}
    ensures |LostUsers(st, o)| == |Users(st, o)| - 1
  {
    var b :| OnlyBack(st, o, b);
    assert Users(st, o) == LostUsers(st, o) + {b} && b !in LostUsers(st, o);
    assert o in Users(st, o);
    if forall h :: UserOf(st, h, o) ==> st.hdrs[h].where.Back? {
      forall h | h in Users(st, o) ensures h == b { assert UserOf(st, h, o); }
    }
    if Users(st, o) == {o} {
      forall h | UserOf(st, h, o) ensures h == b { assert h in Users(st, o) && b in Users(st, o); }
    }
  }

  /** A packet's item is back in its own zone exactly if the header it came with was freed last;
      otherwise the header of a sharer, which came from elsewhere, went there. */
  lemma {:induction false} OwnZoneIff(run: seq<State>, ops: seq<Op>, i: nat, o: Hid)
    requires IsRun(run, ops) && i < |run| && o in run[i].hdrs && run[i].hdrs[o].ext.Embedded?
    requires run[i].hdrs[o].kind.Packet?
    requires Sharers(run[i], run[i].hdrs[o].ext.clust) == {}
    ensures var st := run[i];
            (forall h :: UserOf(st, h, o) && st.hdrs[h].where.Back? ==> st.hdrs[h].where.zone == st.hdrs[h].home)
            <==> st.hdrs[o].where == Back(Packs)
  {
    hide IsRun, Can, Next, Sharers;
    RunInv(run, ops, i);
    var st := run[i];
    At(st, o);
    SharersAre(st, o);
    var b :| OnlyBack(st, o, b);
    At(st, b);
    hide Inv;
  }

  /** Packet 0 with its count and place, and header 1. */
  ghost function Pair(c: Cid, k: nat, a: Where, b: Hdr): State {
    State(map[0 := Hdr(Packs, Packet, Embedded(c, k), a), 1 := b], map[], false)
  }

  ghost function Sharer(c: Cid, where: Where): Hdr { Hdr(Mbufs, Packet, Shadow(c, 0), where) }

  lemma {:induction false} AstrayShare(c: Cid)
    ensures var st1 := GotPacket(State(map[], map[], false), 0, c); var st2 := Got(st1, 1);
            && Can(State(map[], map[], false), GetPacket(0, c)) && Can(st1, Get(1)) && Can(st2, Share(1, 0))
            && Next(st2, Share(1, 0)) == Pair(c, 2, InUse, Sharer(c, InUse))
  {
  }

  lemma {:induction false} AstrayFree(c: Cid)
    ensures var st3, st4 := Pair(c, 2, InUse, Sharer(c, InUse)), Pair(c, 1, Lost, Sharer(c, InUse));
            && Can(st3, Free(0)) && Next(st3, Free(0)) == st4 && Can(st4, Free(1))
            && Next(st4, Free(1)) == Pair(c, 0, Lost, Sharer(c, Back(Packs)))
  {
  }

  /** A packet shared once and freed by its first owner first: that header is lost, and with it the
      item; the sharer's header goes to the wrong zone. */
  lemma {:induction false} PacketGoesAstray(c: Cid) returns (run: seq<State>, ops: seq<Op>)
    ensures IsRun(run, ops) && |ops| == 5 && Users(run[5], 0) == {0, 1} && Sharers(run[5], c) == {}
    ensures run[5].hdrs[0].where == Lost && run[5].hdrs[0].home == Packs
    ensures run[5].hdrs[1].where == Back(Packs) && run[5].hdrs[1].home == Mbufs
  {
    hide Can, Dup, Freed, Reached, CanFree;
    AstrayShare(c);
    AstrayFree(c);
    var st := State(map[], map[], false);
    var st1 := GotPacket(st, 0, c);
    run := [st, st1, Got(st1, 1), Pair(c, 2, InUse, Sharer(c, InUse)), Pair(c, 1, Lost, Sharer(c, InUse)),
            Pair(c, 0, Lost, Sharer(c, Back(Packs)))];
    ops := [GetPacket(0, c), Get(1), Share(1, 0), Free(0), Free(1)];
  }
}
