/** m_unshare: a chain none of whose clusters is shared. */
module MbufUnshare {
  import opened Basics
  import opened MbufMem
  import opened MbufChains
  import opened MbufEdits
  import opened MbufPool
  import opened MbufCollapse
  import opened MbufNeed

  // ---- Mbufs that have their storage to themselves ----

  ghost predicate AllOwn(mem: Mem, s: seq<Id>) { forall i :: 0 <= i < |s| ==> Own(mem, s[i]) }

  lemma {:induction false} OwnIs(mem: Mem, x: Id)
    requires Ok(mem) && x in mem.mbufs
    ensures Own(mem, x) <==> !Ext(mem, x) || Writable(mem, x)
  {
    FitsOf(mem, x);
    assert Counted(mem, mem.mbufs[x].store);
  }

  lemma {:induction false} OwnFree(mem: Mem, i: Id, x: Id)
    requires Ok(mem) && Own(mem, x) && x != i
    ensures Own(FreeOne(mem, i), x)
  {
    if i in mem.mbufs { OnlyUser(mem, x, i); }
  }

  lemma {:induction false} OwnSet(mem: Mem, i: Id, b: Mbuf, x: Id)
    requires Own(mem, x) && i in mem.mbufs && b.store == mem.mbufs[i].store && b.rdonly == mem.mbufs[i].rdonly
    requires FitsIn(b, mem.stores)
    ensures Own(SetMbuf(mem, i, b), x)
  {
  }

  lemma {:induction false} OwnExtend(mem: Mem, i: Id, d: seq<byte>, x: Id)
    requires Own(mem, x) && i in mem.mbufs && FitsIn(mem.mbufs[i], mem.stores)
    requires mem.mbufs[i].off + mem.mbufs[i].len + |d| <= |mem.stores[mem.mbufs[i].store].bytes|
    ensures Own(Extend(mem, i, d), x)
  {
  }

  lemma {:induction false} OwnAbsorb(mem: Mem, m: Id, n: Id, next: Option<Id>, x: Id)
    requires Ok(mem) && m in mem.mbufs && n in mem.mbufs && m != n && Len(mem, n) <= Trailing(mem, m)
    requires Own(mem, x) && x != n
    ensures AbsorbFits(mem, m, n) && Own(Absorb(mem, m, n, next), x)
  {
    RoomFor(mem, m, n);
    SliceLength(mem, n);
    var mem1 := Extend(mem, m, Bytes(mem, n));
    OwnExtend(mem, m, Bytes(mem, n), x);
    ExtendOk(mem, m, Bytes(mem, n));
    FitsOf(mem1, m);
    OwnSet(mem1, m, mem1.mbufs[m].(next := next), x);
    SetNextOk(mem1, m, next);
    hide Ok, Own, Extend, Untouched;
    OwnFree(SetNext(mem1, m, next), n, x);
  }

  /** Whoever had its storage to itself still does, those in d aside. */
  ghost predicate OwnKept(mem: Mem, mem': Mem, d: set<Id>) { forall x :: Own(mem, x) && x !in d ==> Own(mem', x) }

  lemma {:induction false} OwnKeptTrans(m0: Mem, m1: Mem, m2: Mem, d: set<Id>, e: set<Id>)
    requires OwnKept(m0, m1, d) && OwnKept(m1, m2, e) && e <= d
    ensures OwnKept(m0, m2, d)
  {
    hide Own;
  }

  lemma {:induction false} AllOwnKept(mem: Mem, mem': Mem, d: set<Id>, s: seq<Id>)
    requires OwnKept(mem, mem', d) && AllOwn(mem, s) && forall x :: x in s ==> x !in d
    ensures AllOwn(mem', s)
  {
    hide Own;
    forall i | 0 <= i < |s| ensures Own(mem', s[i]) { assert s[i] in s; }
  }

  lemma {:induction false} KeptNext(mem: Mem, i: Id, next: Option<Id>)
    requires Ok(mem) && i in mem.mbufs
    ensures OwnKept(mem, SetNext(mem, i, next), {})
  {
    FitsOf(mem, i);
    forall x | Own(mem, x) ensures Own(SetNext(mem, i, next), x) {
      OwnSet(mem, i, mem.mbufs[i].(next := next), x);
    }
  }

  lemma {:induction false} KeptFree(mem: Mem, i: Id)
    requires Ok(mem)
    ensures OwnKept(mem, FreeOne(mem, i), {i})
  {
    hide Ok, Own, FreeOne;
    forall x | Own(mem, x) && x != i ensures Own(FreeOne(mem, i), x) { OwnFree(mem, i, x); }
  }

  lemma {:induction false} KeptNew(mem0: Mem, mem: Mem, i: Id, room: nat)
    requires Ok(mem0) && NewOne(mem0, mem, i, room)
    ensures OwnKept(mem0, mem, {}) && Own(mem, i)
  {
    forall x | Own(mem0, x) ensures Own(mem, x) { UntouchedAt(mem0, mem, {}, x); }
  }

  lemma {:induction false} KeptExtend(mem: Mem, i: Id, d: seq<byte>)
    requires i in mem.mbufs && FitsIn(mem.mbufs[i], mem.stores)
    requires mem.mbufs[i].off + mem.mbufs[i].len + |d| <= |mem.stores[mem.mbufs[i].store].bytes|
    ensures OwnKept(mem, Extend(mem, i, d), {})
  {
    hide Own, Extend;
    forall x | Own(mem, x) ensures Own(Extend(mem, i, d), x) { OwnExtend(mem, i, d, x); }
  }

  // ---- Copies ----

  /** came is a new chain that holds d, with storage of its own. */
  ghost predicate Copied(mem0: Mem, mem: Mem, came: seq<Id>, d: seq<byte>) {
    && Ok(mem) && Untouched(mem0, mem, {}) && OwnKept(mem0, mem, {}) && came != []
    && LinkedTo(mem.mbufs, came, None) && AllNew(came, mem0) && AllOwn(mem, came) && ChainBytes(mem, came) == d
    && Live(mem) == Live(mem0) + Members(came)
  }

  lemma {:induction false} FirstCopy(mem0: Mem, mem: Mem, i: Id, room: nat, d: seq<byte>)
    requires Ok(mem0) && NewOne(mem0, mem, i, room) && |d| <= room
    ensures i in mem.mbufs && FitsIn(mem.mbufs[i], mem.stores)
    ensures mem.mbufs[i].off + mem.mbufs[i].len + |d| <= |mem.stores[mem.mbufs[i].store].bytes|
    ensures Copied(mem0, Extend(mem, i, d), [i], d)
  {
    hide Ok, Own, Extend, Bytes, Untouched, FitsIn;
    FillNew(mem0, mem, i, room, d);
    KeptNew(mem0, mem, i, room);
    KeptExtend(mem, i, d);
    var mem' := Extend(mem, i, d);
    OwnKeptTrans(mem0, mem, mem', {}, {});
    assert Own(mem', i);
    Alone(mem'.mbufs, i);
    BytesOne(mem', i);
  }

  /** A new mbuf comes to the end of the chain c. */
  lemma {:induction false} JoinNew(mem: Mem, mem1: Mem, c: seq<Id>, i: Id)
    requires c != [] && LinkedTo(mem.mbufs, c, None) && Ok(mem1) && Untouched(mem, mem1, {})
    requires LinkedTo(mem1.mbufs, [i], None) && AllNew([i], mem)
    ensures c[|c| - 1] in mem1.mbufs
    ensures var mem2 := SetNext(mem1, c[|c| - 1], Some(i));
            && Ok(mem2) && LinkedTo(mem2.mbufs, c + [i], None) && Live(mem2) == Live(mem1)
            && ChainBytes(mem2, c + [i]) == ChainBytes(mem, c) + ChainBytes(mem1, [i])
            && Untouched(mem1, mem2, {c[|c| - 1]})
  {
    hide Ok, Untouched, ChainBytes, SetNext, LinkedTo, Bytes, Live;
    var last := c[|c| - 1];
    NewApart(mem, c, [i]);
    SegFrame(mem, mem1, c, None, {});
    SetEnd(mem1, c, None, Some(i));
    var mem2 := SetNext(mem1, last, Some(i));
    assert last in c && i in [i];
    SegFrame(mem1, mem2, [i], None, {last});
    SegJoin(mem2.mbufs, c, [i], None);
    BytesConcat(mem2, c, [i]);
    NextLive(mem1, last, Some(i));
  }

  lemma {:induction false} NextCopy(mem0: Mem, mem: Mem, came: seq<Id>, d: seq<byte>, mem1: Mem, i: Id, e: seq<byte>)
    requires Copied(mem0, mem, came, d) && Copied(mem, mem1, [i], e)
    ensures came[|came| - 1] in mem1.mbufs
    ensures Copied(mem0, SetNext(mem1, came[|came| - 1], Some(i)), came + [i], d + e)
  {
    hide Ok, Untouched, ChainBytes, SetNext, LinkedTo, AllOwn, OwnKept, AllNew;
    JoinNew(mem, mem1, came, i);
    NextOwn(mem0, mem, mem1, came, i);
    assert Members(came + [i]) == Members(came) + Members([i]);
    CopyUntouched(mem0, mem, mem1, SetNext(mem1, came[|came| - 1], Some(i)), came, i);
  }

  lemma {:induction false} NextOwn(mem0: Mem, mem: Mem, mem1: Mem, came: seq<Id>, i: Id)
    requires Ok(mem1) && came != [] && came[|came| - 1] in mem1.mbufs && OwnKept(mem0, mem, {})
    requires OwnKept(mem, mem1, {})
    requires AllOwn(mem, came) && AllOwn(mem1, [i])
    ensures var mem2 := SetNext(mem1, came[|came| - 1], Some(i)); OwnKept(mem0, mem2, {}) && AllOwn(mem2, came + [i])
  {
    hide Ok, Own, SetNext;
    var last := came[|came| - 1];
    var mem2 := SetNext(mem1, last, Some(i));
    KeptNext(mem1, last, Some(i));
    OwnKeptTrans(mem0, mem, mem1, {}, {});
    OwnKeptTrans(mem0, mem1, mem2, {}, {});
    OwnKeptTrans(mem, mem1, mem2, {}, {});
    AllOwnKept(mem, mem2, {}, came);
    AllOwnKept(mem1, mem2, {}, [i]);
  }

  lemma {:induction false} CopyUntouched(mem0: Mem, mem: Mem, mem1: Mem, mem2: Mem, came: seq<Id>, i: Id)
    requires came != [] && Untouched(mem0, mem, {}) && Untouched(mem, mem1, {})
    requires Untouched(mem1, mem2, {came[|came| - 1]})
    requires AllNew(came, mem0) && AllNew([i], mem)
    ensures Untouched(mem0, mem2, {}) && AllNew(came + [i], mem0)
  {
    assert came[|came| - 1] in came && i in [i];
    forall x | x in mem0.mbufs ensures x in mem.mbufs { UntouchedAt(mem0, mem, {}, x); }
    UntouchedTrans(mem0, mem, mem1, {}, {});
    UntouchedFresh(mem0, mem1, mem2, came[|came| - 1]);
  }

  /** m_freem. */
  method FreeChain(pool: Pool, m0: Option<Id>, ghost c: seq<Id>)
    requires Ok(pool.mem) && m0 == Head(c, None) && LinkedTo(pool.mem.mbufs, c, None)
    modifies pool`mem
    ensures Ok(pool.mem) && Untouched(old(pool.mem), pool.mem, Members(c))
    ensures Live(pool.mem) == Live(old(pool.mem)) - Members(c)
  {
    FreeAllOk(pool.mem, c);
    hide Ok, Untouched, FreeOne, LinkedTo;
    var m := m0;
    ghost var rest := c;
    while m.Some?
      invariant Ok(pool.mem) && LinkedTo(pool.mem.mbufs, rest, None) && m == Head(rest, None)
      invariant FreeAll(pool.mem, rest) == FreeAll(old(pool.mem), c)
      decreases |rest|
    {
      FreeHead(pool.mem, rest);
      var next := pool.mem.mbufs[m.value].next;
      pool.mem := FreeOne(pool.mem, m.value);
      m := next;
      rest := rest[1..];
    }
  }

  lemma {:induction false} FreeHead(mem: Mem, rest: seq<Id>)
    requires Ok(mem) && rest != [] && LinkedTo(mem.mbufs, rest, None)
    ensures rest[0] in mem.mbufs && mem.mbufs[rest[0]].next == Head(rest[1..], None)
    ensures Ok(FreeOne(mem, rest[0])) && LinkedTo(FreeOne(mem, rest[0]).mbufs, rest[1..], None)
  {
    var n, r := rest[0], rest[1..];
    assert rest == [n] + r;
    SegSplit(mem.mbufs, [n], r, None);
    assert mem.mbufs[n].next == Head(r, None);
    hide Ok, Untouched, FreeOne, LinkedTo;
    FreeAny(mem, n);
    assert n in [n];
    SegFrame(mem, FreeOne(mem, n), r, None, {n});
  }

  /** A new cluster holding d. */
  method CopyPiece(pool: Pool, d: seq<byte>) returns (i: Option<Id>)
    requires Ok(pool.mem) && |d| <= MCLBYTES
    modifies pool`mem, pool`budget
    ensures i.None? ==> pool.mem == old(pool.mem)
    ensures (i.Some? <==> old(pool.budget) > 0) && pool.budget == if i.Some? then old(pool.budget) - 1 else 0
    ensures i.Some? ==> Copied(old(pool.mem), pool.mem, [i.value], d)
    ensures i.Some? ==> Carrying(old(pool.mem), pool.mem) && Ext(pool.mem, i.value)
                        && Trailing(pool.mem, i.value) == MCLBYTES - |d|
  {
    hide Ok, Copied, NewOne, Carrying;
    ghost var mem0 := pool.mem;
    i := pool.Get(MCLBYTES, true, 0, false);
    if i.Some? {
      FirstCopy(mem0, pool.mem, i.value, MCLBYTES, d);
      PieceFacts(mem0, pool.mem, i.value, MCLBYTES, d);
      pool.mem := Extend(pool.mem, i.value, d);
    }
  }

  /** A chain of new clusters, with this much room left in the last. */
  ghost predicate Stacked(mem0: Mem, mem: Mem, came: seq<Id>, room: nat) {
    && Carrying(mem0, mem) && came != [] && (forall y :: y in came ==> Ext(mem, y))
    && Trailing(mem, came[|came| - 1]) == room
  }

  lemma {:induction false} StackNext(mem0: Mem, mem: Mem, mem1: Mem, came: seq<Id>, room: nat, i: Id)
    requires Ok(mem1) && Stacked(mem0, mem, came, room) && Carrying(mem, mem1) && Ext(mem1, i)
    requires came[|came| - 1] in mem1.mbufs && came[|came| - 1] !in mem0.mbufs && came[|came| - 1] != i
    requires forall y :: y in came ==> y in mem.mbufs
    ensures Stacked(mem0, SetNext(mem1, came[|came| - 1], Some(i)), came + [i], Trailing(mem1, i))
  {
    hide Ok, Ext, Trailing, SetNext;
    var last := came[|came| - 1];
    var mem2 := SetNext(mem1, last, Some(i));
    forall x | x in mem0.mbufs ensures Carried(mem0, mem2, x, 0) {
      CarriedTrans(mem0, mem, mem1, x, 0, 0);
      CarriedNext(mem1, last, Some(i), x);
      CarriedTrans(mem0, mem1, mem2, x, 0, 0);
    }
    forall y | y in came + [i] ensures Ext(mem2, y) {
      if y in came { ExtCarried(mem, mem1, y, 0); }
      RoomNext(mem1, last, Some(i), y);
    }
    RoomNext(mem1, last, Some(i), i);
  }

  /** The bytes of m in new clusters, as many as it takes; fewer to be had than that, it fails. */
  method CopyOut(pool: Pool, m: Id) returns (first: Option<Id>, last: Id, ghost came: seq<Id>)
    requires Ok(pool.mem) && m in pool.mem.mbufs
    modifies pool`mem, pool`budget
    ensures first.None? ==> Ok(pool.mem) && Untouched(old(pool.mem), pool.mem, {})
                            && Live(pool.mem) == Live(old(pool.mem))
    ensures first.Some? <==> old(pool.budget) >= Pieces(Len(old(pool.mem), m))
    ensures pool.budget == if first.Some? then old(pool.budget) - Pieces(Len(old(pool.mem), m)) else 0
    ensures first.Some? ==> Copied(old(pool.mem), pool.mem, came, Bytes(old(pool.mem), m))
                            && came[0] == first.value && came[|came| - 1] == last
    ensures first.Some? ==> Stacked(old(pool.mem), pool.mem, came, LastRoom(Len(old(pool.mem), m)))
  {
    hide Ok, Copied, Bytes, Untouched, LinkedTo, AllNew, Live, SetNext, AllOwn, Stacked, Carrying, Ext, Trailing;
    ghost var mem0 := pool.mem;
    UntouchedSelf(mem0);
    ChainLength(mem0, [], m);
    var d := Bytes(pool.mem, m);
    var off := Min(|d|, MCLBYTES);
    last, came := 0, [];
    var i := CopyPiece(pool, d[..off]);
    if i.None? { return None, 0, []; }
    last, came := i.value, [i.value];
    first := i;
    ghost var room: nat := MCLBYTES - off;
    StackOne(mem0, pool.mem, i.value, room);
    while off < |d|
      invariant Stacked(mem0, pool.mem, came, room)
      invariant LastRoom(|d|) == if off < |d| then LastRoom(|d| - off) else room
      invariant off <= |d| && Copied(mem0, pool.mem, came, d[..off]) && came != []
      invariant first == Some(came[0]) && came[|came| - 1] == last
      invariant old(pool.budget) - pool.budget + (if off < |d| then Pieces(|d| - off) else 0) == Pieces(|d|)
    {
      var cc := Min(|d| - off, MCLBYTES);
      ghost var mem1 := pool.mem;
      CopiedOk(mem0, mem1, came, d[..off]);
      i := CopyPiece(pool, d[off..off + cc]);
      if i.None? {
        DropCopies(pool, first, mem0, came, d[..off]);
        return None, 0, [];
      }
      NextCopy(mem0, mem1, came, d[..off], pool.mem, i.value, d[off..off + cc]);
      CopyThere(mem0, mem1, pool.mem, came, d[..off], i.value, d[off..off + cc]);
      StackNext(mem0, mem1, pool.mem, came, room, i.value);
      room := MCLBYTES - cc;
      pool.mem := SetNext(pool.mem, last, i);
      assert d[..off + cc] == d[..off] + d[off..off + cc];
      last, came := i.value, came + [i.value];
      off := off + cc;
    }
    assert d[..off] == d;
  }

  lemma {:induction false} StackOne(mem0: Mem, mem: Mem, i: Id, room: nat)
    requires Carrying(mem0, mem) && Ext(mem, i) && Trailing(mem, i) == room
    ensures Stacked(mem0, mem, [i], room)
  {
    hide Ext, Trailing;
  }

  lemma {:induction false} CopyThere(mem0: Mem, mem: Mem, mem1: Mem, came: seq<Id>, d: seq<byte>, i: Id, e: seq<byte>)
    requires Copied(mem0, mem, came, d) && Copied(mem, mem1, [i], e)
    ensures Ok(mem1) && (forall y :: y in came ==> y in mem.mbufs && y !in mem0.mbufs && y != i)
  {
    hide Ok, Untouched, ChainBytes, AllOwn, OwnKept;
    NewApart(mem, came, [i]);
    assert i in [i];
    assert forall y :: y in came ==> y in Live(mem);
  }

  /** The copies made so far are released again. */
  method DropCopies(pool: Pool, first: Option<Id>, ghost mem0: Mem, ghost came: seq<Id>, ghost d: seq<byte>)
    requires Copied(mem0, pool.mem, came, d) && came != [] && first == Some(came[0])
    modifies pool`mem
    ensures Ok(pool.mem) && Untouched(mem0, pool.mem, {}) && Live(pool.mem) == Live(mem0)
  {
    hide Ok, Copied, Untouched, LinkedTo, AllNew;
    ghost var mem1 := pool.mem;
    CopiedOk(mem0, mem1, came, d);
    FreeChain(pool, first, came);
    CopyFreed(mem0, mem1, pool.mem, came);
  }

  lemma {:induction false} CopiedOk(mem0: Mem, mem: Mem, came: seq<Id>, d: seq<byte>)
    requires Copied(mem0, mem, came, d)
    ensures Ok(mem) && LinkedTo(mem.mbufs, came, None) && Untouched(mem0, mem, {}) && AllNew(came, mem0)
    ensures Live(mem) == Live(mem0) + Members(came)
  {
  }

  lemma {:induction false} CopyFreed(mem0: Mem, mem: Mem, mem': Mem, came: seq<Id>)
    requires Untouched(mem0, mem, {}) && Untouched(mem, mem', Members(came)) && AllNew(came, mem0)
    requires Live(mem) == Live(mem0) + Members(came) && Live(mem') == Live(mem) - Members(came)
    ensures Untouched(mem0, mem', {}) && Live(mem') == Live(mem0)
  {
    hide Untouched;
    assert Members(came) == Members([]) + Members(came);
    assert Members([]) == {};
    NewUntouched(mem0, mem, mem', [], came);
  }

  // ---- The walk ----

  /** The first j mbufs of the chain c, which was c0, have their storage to themselves. */
  ghost predicate Unsharing(mem0: Mem, mem: Mem, c0: seq<Id>, c: seq<Id>, j: nat) {
    Rearranged(mem0, mem, c0, c) && j <= |c| && AllOwn(mem, c[..j])
  }

  lemma {:induction false} WalkAt(mem0: Mem, mem: Mem, c0: seq<Id>, c: seq<Id>, j: nat)
    requires Unsharing(mem0, mem, c0, c, j)
    ensures Ok(mem) && LinkedTo(mem.mbufs, c, None)
    ensures j < |c| ==> c[j] in mem.mbufs && mem.mbufs[c[j]].next == Head(c[j + 1..], None)
    ensures j > 0 ==> c[j - 1] in mem.mbufs && mem.mbufs[c[j - 1]].next == Head(c[j..], None)
  {
    if j < |c| { Follow(mem0, mem, c0, c, j); }
    if j > 0 { Follow(mem0, mem, c0, c, j - 1); }
  }

  lemma {:induction false} WalkOn(mem0: Mem, mem: Mem, c0: seq<Id>, c: seq<Id>, j: nat)
    requires Unsharing(mem0, mem, c0, c, j) && j < |c| && (!Ext(mem, c[j]) || Writable(mem, c[j]))
    ensures Unsharing(mem0, mem, c0, c, j + 1)
  {
    hide Own, Rearranged, Ok, Ext, Writable, LinkedTo;
    WalkAt(mem0, mem, c0, c, j);
    OwnIs(mem, c[j]);
    assert c[..j + 1] == c[..j] + [c[j]];
    OwnPush(mem, c[..j], c[j]);
  }

  lemma {:induction false} OwnPush(mem: Mem, s: seq<Id>, x: Id)
    requires AllOwn(mem, s) && Own(mem, x)
    ensures AllOwn(mem, s + [x])
  {
    hide Own;
  }

  lemma {:induction false} WalkAbsorb(mem0: Mem, mem: Mem, c0: seq<Id>, c: seq<Id>, j: nat, e: nat)
    requires Unsharing(mem0, mem, c0, c, e) && 0 < j < |c| && j <= e && Len(mem, c[j]) <= Trailing(mem, c[j - 1])
    ensures AbsorbFits(mem, c[j - 1], c[j])
    ensures Unsharing(mem0, Absorb(mem, c[j - 1], c[j], mem.mbufs[c[j]].next), c0, Removed(c, j),
                      if j < e then e - 1 else e)
  {
    hide Ok, LinkedTo, Absorb, AbsorbFits, Own, Trailing, Len;
    RearrangedOk(mem0, mem, c0, c);
    Follow(mem0, mem, c0, c, j - 1);
    FoldStep(mem0, mem, c0, c, j - 1);
    var m, n := c[j - 1], c[j];
    var mem' := Absorb(mem, m, n, mem.mbufs[n].next);
    hide Rearranged;
    DistinctIn(mem.mbufs, c, j);
    OwnWithout(mem, c, j, e);
  }

  lemma {:induction false} OwnWithout(mem: Mem, c: seq<Id>, j: nat, e: nat)
    requires Ok(mem) && 0 < j < |c| && j <= e <= |c| && AllOwn(mem, c[..e]) && AbsorbFits(mem, c[j - 1], c[j])
    requires Len(mem, c[j]) <= Trailing(mem, c[j - 1]) && forall i :: 0 <= i < |c| && i != j ==> c[i] != c[j]
    ensures AllOwn(Absorb(mem, c[j - 1], c[j], mem.mbufs[c[j]].next), Removed(c, j)[..if j < e then e - 1 else e])
  {
    var m, n := c[j - 1], c[j];
    assert m in mem.mbufs && n in mem.mbufs && m != n;
    hide Ok, LinkedTo, Absorb, AbsorbFits, Own, Trailing, Len;
    var mem' := Absorb(mem, m, n, mem.mbufs[n].next);
    var d, e' := Removed(c, j), if j < e then e - 1 else e;
    forall i | 0 <= i < e' ensures Own(mem', d[..e'][i]) {
      var k := if i < j then i else i + 1;
      assert d[..e'][i] == c[k];
      assert Own(mem, c[..e][k]);
      OwnAbsorb(mem, m, n, mem.mbufs[n].next, c[k]);
    }
  }

  lemma {:induction false} DistinctIn(mbufs: map<Id, Mbuf>, c: seq<Id>, j: nat)
    requires LinkedTo(mbufs, c, None) && j < |c|
    ensures forall i :: 0 <= i < |c| && i != j ==> c[i] != c[j]
  {
  }

  lemma {:induction false} WalkReplace(mem0: Mem, mem: Mem, mem1: Mem, c0: seq<Id>, c: seq<Id>, j: nat, came: seq<Id>)
    requires Unsharing(mem0, mem, c0, c, j) && j < |c| && Copied(mem, mem1, came, Bytes(mem, c[j]))
    ensures came != [] && came[|came| - 1] in mem1.mbufs && (j > 0 ==> c[j - 1] in mem1.mbufs)
    ensures Unsharing(mem0, Replace(mem1, c[..j], [c[j]], c[j + 1..], came), c0, c[..j] + (came + c[j + 1..]),
                      j + |came|)
  {
    hide Ok, LinkedTo, AllOwn, ChainBytes, Bytes, Untouched, Replace, Rearranged;
    WalkAt(mem0, mem, c0, c, j);
    var p, m, q := c[..j], c[j], c[j + 1..];
    assert c == p + ([m] + q);
    BytesOne(mem, m);
    ReplaceNew(mem, mem1, p, [m], q, came, None);
    var mem' := Replace(mem1, p, [m], q, came);
    RearrangedTrans(mem0, mem, mem', c0, c, p + (came + q));
    ReplacedOff(mem, p, m, q, came);
    OwnReplace(mem, mem1, p, m, q, came);
    OwnBoth(mem', p, came);
    assert (p + (came + q))[..j + |came|] == p + came;
  }

  lemma {:induction false} OwnBoth(mem: Mem, s: seq<Id>, t: seq<Id>)
    requires AllOwn(mem, s) && AllOwn(mem, t)
    ensures AllOwn(mem, s + t)
  {
    hide Own;
  }

  lemma {:induction false} ReplacedOff(mem: Mem, p: seq<Id>, m: Id, q: seq<Id>, came: seq<Id>)
    requires LinkedTo(mem.mbufs, p + ([m] + q), None) && AllNew(came, mem)
    ensures m !in p && m !in came
  {
    SegSplit(mem.mbufs, p, [m] + q, None);
    InChain(mem.mbufs, p, m, q);
    hide LinkedTo;
    assert m in [m] + q;
  }

  lemma {:induction false} OwnReplace(mem: Mem, mem1: Mem, p: seq<Id>, m: Id, q: seq<Id>, came: seq<Id>)
    requires Ok(mem1) && OwnKept(mem, mem1, {}) && AllOwn(mem, p) && AllOwn(mem1, came) && came != []
    requires m !in p && m !in came && came[|came| - 1] in mem1.mbufs && (p != [] ==> p[|p| - 1] in mem1.mbufs)
    ensures AllOwn(Replace(mem1, p, [m], q, came), p) && AllOwn(Replace(mem1, p, [m], q, came), came)
  {
    hide Ok, Own, Replace;
    AllOwnKept(mem, mem1, {}, p);
    KeptReplace(mem1, p, m, q, came);
    AllOwnKept(mem1, Replace(mem1, p, [m], q, came), {m}, p);
    AllOwnKept(mem1, Replace(mem1, p, [m], q, came), {m}, came);
  }

  lemma {:induction false} KeptReplace(mem: Mem, p: seq<Id>, m: Id, q: seq<Id>, came: seq<Id>)
    requires Ok(mem) && came != [] && came[|came| - 1] in mem.mbufs && (p != [] ==> p[|p| - 1] in mem.mbufs)
    ensures OwnKept(mem, Replace(mem, p, [m], q, came), {m})
  {
    hide Ok, Own, SetNext, FreeOne, Untouched;
    var last := came[|came| - 1];
    var mem1 := SetNext(mem, last, Head(q, None));
    SetNextOk(mem, last, Head(q, None));
    KeptNext(mem, last, Head(q, None));
    var mem2 := if p == [] then mem1 else SetNext(mem1, p[|p| - 1], Some(came[0]));
    if p != [] {
      SetNextOk(mem1, p[|p| - 1], Some(came[0]));
      KeptNext(mem1, p[|p| - 1], Some(came[0]));
      OwnKeptTrans(mem, mem1, mem2, {}, {});
    }
    KeptFree(mem2, m);
    FreeJust(mem2, m);
  }

  lemma {:induction false} FreeJust(mem: Mem, m: Id)
    ensures FreeAll(mem, [m]) == FreeOne(mem, m)
  {
    hide FreeOne;
    assert [m][1..] == [];
    assert FreeAll(mem, [m]) == FreeAll(FreeOne(mem, m), []);
  }

  lemma {:induction false} OwnAt(mem0: Mem, mem: Mem, c0: seq<Id>, c: seq<Id>, j: nat, e: nat)
    requires Unsharing(mem0, mem, c0, c, e) && j < e
    ensures !Ext(mem, c[j]) || Writable(mem, c[j])
  {
    assert Own(mem, c[..e][j]);
    RearrangedOk(mem0, mem, c0, c);
    OwnIs(mem, c[j]);
  }

  /** An mbuf that is shared or read-only gives way to copies of its bytes. */
  method ReplaceByCopy(pool: Pool, head: Id, m: Id, prev: Option<Id>,
                       ghost mem0: Mem, ghost c0: seq<Id>, ghost c1: seq<Id>, ghost j: nat)
    returns (ok: bool, head': Id, first: Id, ghost c: seq<Id>, ghost e: nat)
    requires Unsharing(mem0, pool.mem, c0, c1, j) && j < |c1| && c1[j] == m && head == c1[0]
    requires prev == if j == 0 then None else Some(c1[j - 1])
    modifies pool`mem, pool`budget
    ensures ok ==> Unsharing(mem0, pool.mem, c0, c, e) && j < e && |c| - e == |c1| - j - 1
                   && head' == c[0] && first == c[j] && c[..j] == c1[..j]
    ensures !ok ==> Ok(pool.mem) && Untouched(mem0, pool.mem, Members(c0)) && Live(pool.mem) == Live(mem0) - Members(c0)
    ensures ok <==> old(pool.budget) >= Pieces(Len(old(pool.mem), m))
    ensures ok ==> pool.budget == old(pool.budget) - Pieces(Len(old(pool.mem), m))
    ensures ok ==> Swapped(old(pool.mem), pool.mem, c1, c, j, e)
  {
    hide Unsharing, Ok, LinkedTo, Copied, Untouched, Live, Replace, Bytes, Pieces, LastRoom, Len, Stacked, Swapped;
    WalkAt(mem0, pool.mem, c0, c1, j);
    ghost var mem1, came := pool.mem, [];
    head', c, e, ok := head, c1, j, false;
    var copy, last;
    copy, last, came := CopyOut(pool, m);
    if copy.None? {
      first := m;
      FailedCopy(mem0, mem1, pool.mem, c0, c1, j);
      ghost var mem2 := pool.mem;
      FreeChain(pool, Some(head), c1);
      FreedAll(mem0, mem1, mem2, pool.mem, c0, c1, j);
      return;
    }
    WalkReplace(mem0, mem1, pool.mem, c0, c1, j, came);
    CopiedOk(mem1, pool.mem, came, Bytes(mem1, m));
    UntouchedAt(mem1, pool.mem, {}, m);
    first, ok := copy.value, true;
    SwapReplace(mem0, mem1, pool.mem, c0, c1, j, came);
    Relink(pool, last, m, prev, copy.value, c1[..j], c1[j + 1..], came);
    if prev.None? { head' := copy.value; }
    c, e := c1[..j] + (came + c1[j + 1..]), j + |came|;
  }

  method Relink(pool: Pool, last: Id, m: Id, prev: Option<Id>, first: Id, ghost p: seq<Id>, ghost q: seq<Id>,
                ghost came: seq<Id>)
    requires came != [] && came[0] == first && came[|came| - 1] == last && last in pool.mem.mbufs
    requires m in pool.mem.mbufs && pool.mem.mbufs[m].next == Head(q, None)
    requires prev == (if p == [] then None else Some(p[|p| - 1])) && (p != [] ==> p[|p| - 1] in pool.mem.mbufs)
    modifies pool`mem
    ensures pool.mem == Replace(old(pool.mem), p, [m], q, came)
  {
    ghost var mem1 := pool.mem;
    pool.mem := SetNext(pool.mem, last, pool.mem.mbufs[m].next);
    if prev.Some? {
      pool.mem := SetNext(pool.mem, prev.value, Some(first));
    }
    FreeJust(pool.mem, m);
    pool.mem := FreeOne(pool.mem, m);
  }

  lemma {:induction false} FailedCopy(mem0: Mem, mem1: Mem, mem: Mem, c0: seq<Id>, c: seq<Id>, j: nat)
    requires Unsharing(mem0, mem1, c0, c, j) && Untouched(mem1, mem, {})
    ensures LinkedTo(mem.mbufs, c, None)
  {
    hide Untouched, LinkedTo;
    SegFrame(mem1, mem, c, None, {});
  }

  lemma {:induction false} FreedAll(mem0: Mem, mem1: Mem, mem2: Mem, mem: Mem, c0: seq<Id>, c: seq<Id>, j: nat)
    requires Unsharing(mem0, mem1, c0, c, j) && Untouched(mem1, mem2, {}) && Live(mem2) == Live(mem1)
    requires Untouched(mem2, mem, Members(c)) && Live(mem) == Live(mem2) - Members(c)
    ensures Untouched(mem0, mem, Members(c0)) && Live(mem) == Live(mem0) - Members(c0)
  {
    UntouchedTrans(mem0, mem1, mem2, Members(c0), {});
    UntouchedTrans(mem0, mem2, mem, Members(c0), Members(c));
    forall x ensures x in Live(mem) <==> x in Live(mem0) - Members(c0) {
      assert x in c ==> x in c0 || x !in mem0.mbufs;
    }
  }

  // ---- The clusters it takes ----

  /** Mbuf j of c1 became the mbufs j to e of c: clusters, with what room in the last. */
  ghost predicate Swapped(mem: Mem, mem': Mem, c1: seq<Id>, c: seq<Id>, j: nat, e: nat) {
    && j < |c1| && j < e <= |c| && c[e..] == c1[j + 1..] && Without1(mem, mem', c1[j + 1..], c1[j])
    && AllExt(mem', c, j, e) && Trailing(mem', c[e - 1]) == LastRoom(Len(mem, c1[j]))
  }

  lemma {:induction false} BehindIs(mem: Mem, c: seq<Id>, j: nat, x: Id)
    requires LinkedTo(mem.mbufs, c, None) && j < |c| && x in c[j + 1..]
    ensures x in mem.mbufs && x != c[j] && (j > 0 ==> x != c[j - 1])
  {
  }

  /** The memory before m is released. */
  ghost function Hooked(mem: Mem, p: seq<Id>, q: seq<Id>, came: seq<Id>): Mem
    requires came != [] && came[|came| - 1] in mem.mbufs && (p != [] ==> p[|p| - 1] in mem.mbufs)
  {
    var mem1 := SetNext(mem, came[|came| - 1], Head(q, None));
    if p == [] then mem1 else SetNext(mem1, p[|p| - 1], Some(came[0]))
  }

  lemma {:induction false} HookedIs(mem: Mem, p: seq<Id>, m: Id, q: seq<Id>, came: seq<Id>)
    requires Ok(mem) && came != [] && came[|came| - 1] in mem.mbufs && (p != [] ==> p[|p| - 1] in mem.mbufs)
    ensures Ok(Hooked(mem, p, q, came)) && Replace(mem, p, [m], q, came) == FreeOne(Hooked(mem, p, q, came), m)
    ensures forall x :: x in Hooked(mem, p, q, came).mbufs <==> x in mem.mbufs
  {
    hide Ok, SetNext, FreeOne, Untouched;
    var mem1 := SetNext(mem, came[|came| - 1], Head(q, None));
    SetNextOk(mem, came[|came| - 1], Head(q, None));
    if p != [] { SetNextOk(mem1, p[|p| - 1], Some(came[0])); }
    FreeJust(Hooked(mem, p, q, came), m);
  }

  lemma {:induction false} HookedAt(mem: Mem, p: seq<Id>, q: seq<Id>, came: seq<Id>, x: Id)
    requires Ok(mem) && came != [] && came[|came| - 1] in mem.mbufs && (p != [] ==> p[|p| - 1] in mem.mbufs)
    ensures var mem' := Hooked(mem, p, q, came);
            Trailing(mem', x) == Trailing(mem, x) && (Ext(mem', x) <==> Ext(mem, x))
    ensures x in mem.mbufs && x != came[|came| - 1] && (p != [] ==> x != p[|p| - 1]) ==>
              Carried(mem, Hooked(mem, p, q, came), x, 0)
  {
    hide Ok, Trailing, Ext, SetNext, Untouched;
    var mem1 := SetNext(mem, came[|came| - 1], Head(q, None));
    SetNextOk(mem, came[|came| - 1], Head(q, None));
    RoomNext(mem, came[|came| - 1], Head(q, None), x);
    if p != [] { RoomNext(mem1, p[|p| - 1], Some(came[0]), x); }
    if x in mem.mbufs && x != came[|came| - 1] && (p != [] ==> x != p[|p| - 1]) {
      CarriedNext(mem, came[|came| - 1], Head(q, None), x);
      if p != [] {
        CarriedNext(mem1, p[|p| - 1], Some(came[0]), x);
        CarriedTrans(mem, mem1, Hooked(mem, p, q, came), x, 0, 0);
      }
    }
  }

  lemma {:induction false} SwapReplace(mem0: Mem, mem: Mem, mem1: Mem, c0: seq<Id>, c: seq<Id>, j: nat, came: seq<Id>)
    requires Unsharing(mem0, mem, c0, c, j) && j < |c| && Copied(mem, mem1, came, Bytes(mem, c[j]))
    requires Stacked(mem, mem1, came, LastRoom(Len(mem, c[j])))
    requires came != [] && came[|came| - 1] in mem1.mbufs && (j > 0 ==> c[j - 1] in mem1.mbufs)
    ensures Swapped(mem, Replace(mem1, c[..j], [c[j]], c[j + 1..], came), c, c[..j] + (came + c[j + 1..]), j,
                    j + |came|)
  {
    hide Ok, LinkedTo, Bytes, Untouched, Replace, Unsharing, LastRoom, Len, Ext, Trailing, Copied, Carried;
    WalkAt(mem0, mem, c0, c, j);
    var p, m, q := c[..j], c[j], c[j + 1..];
    var mem' := Replace(mem1, p, [m], q, came);
    CopiedOk(mem, mem1, came, Bytes(mem, m));
    forall x | x in q
      ensures x in mem.mbufs && Carried(mem, mem', x, if mem.mbufs[m].store == mem.mbufs[x].store then 1 else 0)
    {
      SwapRest(mem, mem1, c, j, came, x);
    }
    forall y | y in came ensures Ext(mem', y) && Trailing(mem', y) == Trailing(mem1, y) {
      NewOwn(mem, mem1, came, Bytes(mem, m), m, y);
      SwapPiece(mem1, c, j, came, y);
    }
    SwapIs(mem, mem', c, j, came);
  }

  lemma {:induction false} SwapIs(mem: Mem, mem': Mem, c: seq<Id>, j: nat, came: seq<Id>)
    requires j < |c| && came != [] && Without1(mem, mem', c[j + 1..], c[j])
    requires (forall y :: y in came ==> Ext(mem', y)) && Trailing(mem', came[|came| - 1]) == LastRoom(Len(mem, c[j]))
    ensures Swapped(mem, mem', c, c[..j] + (came + c[j + 1..]), j, j + |came|)
  {
    hide Ext, Trailing, LastRoom, Len, Without1;
    var c' := c[..j] + (came + c[j + 1..]);
    assert c'[j + |came|..] == c[j + 1..];
    forall i | j <= i < j + |came| ensures Ext(mem', c'[i]) {
      assert c'[i] == came[i - j];
      assert came[i - j] in came;
    }
    assert c'[j + |came| - 1] == came[|came| - 1];
  }

  lemma {:induction false} NewOwn(mem: Mem, mem1: Mem, came: seq<Id>, d: seq<byte>, m: Id, y: Id)
    requires Copied(mem, mem1, came, d) && m in mem.mbufs && y in came
    ensures Own(mem1, y) && m != y && m in mem1.mbufs
  {
    hide Ok, Own, LinkedTo, ChainBytes;
    var k :| 0 <= k < |came| && came[k] == y;
    assert Own(mem1, came[k]);
    UntouchedAt(mem, mem1, {}, m);
  }

  lemma {:induction false} SwapRest(mem: Mem, mem1: Mem, c: seq<Id>, j: nat, came: seq<Id>, x: Id)
    requires Ok(mem1) && LinkedTo(mem.mbufs, c, None) && j < |c| && c[j] in mem.mbufs && x in c[j + 1..]
    requires Carrying(mem, mem1) && AllNew(came, mem)
    requires came != [] && came[|came| - 1] in mem1.mbufs && (j > 0 ==> c[j - 1] in mem1.mbufs)
    ensures x in mem.mbufs
    ensures Carried(mem, Replace(mem1, c[..j], [c[j]], c[j + 1..], came), x,
                    if mem.mbufs[c[j]].store == mem.mbufs[x].store then 1 else 0)
  {
    hide Ok, LinkedTo, Replace, Hooked, FreeOne;
    BehindIs(mem, c, j, x);
    var p, m, q := c[..j], c[j], c[j + 1..];
    assert came[|came| - 1] in came;
    assert Carried(mem, mem1, x, 0) && Carried(mem, mem1, m, 0);
    HookedIs(mem1, p, m, q, came);
    HookedAt(mem1, p, q, came, x);
    StoreHooked(mem1, p, q, came, m);
    var mem2 := Hooked(mem1, p, q, came);
    CarriedFree(mem2, m, x);
    CarriedTrans(mem, mem1, mem2, x, 0, 0);
    CarriedTrans(mem, mem2, FreeOne(mem2, m), x, 0, if mem.mbufs[m].store == mem.mbufs[x].store then 1 else 0);
  }

  lemma {:induction false} StoreHooked(mem: Mem, p: seq<Id>, q: seq<Id>, came: seq<Id>, x: Id)
    requires came != [] && came[|came| - 1] in mem.mbufs && (p != [] ==> p[|p| - 1] in mem.mbufs) && x in mem.mbufs
    ensures x in Hooked(mem, p, q, came).mbufs && Hooked(mem, p, q, came).mbufs[x].store == mem.mbufs[x].store
  {
  }

  lemma {:induction false} SwapPiece(mem: Mem, c: seq<Id>, j: nat, came: seq<Id>, y: Id)
    requires Ok(mem) && j < |c| && c[j] in mem.mbufs && y in came && y != c[j] && Ext(mem, y) && Own(mem, y)
    requires came[|came| - 1] in mem.mbufs && (j > 0 ==> c[j - 1] in mem.mbufs)
    ensures var mem' := Replace(mem, c[..j], [c[j]], c[j + 1..], came);
            Ext(mem', y) && Trailing(mem', y) == Trailing(mem, y)
  {
    hide Ok, Ext, Trailing, Replace, Hooked, FreeOne;
    var p, m, q := c[..j], c[j], c[j + 1..];
    HookedIs(mem, p, m, q, came);
    HookedAt(mem, p, q, came, y);
    OwnAlone(mem, y, m);
    StoreHooked(mem, p, q, came, m);
    StoreHooked(mem, p, q, came, y);
    var mem2 := Hooked(mem, p, q, came);
    CarriedFree(mem2, m, y);
    CarriedRoom(mem2, FreeOne(mem2, m), y);
  }

  /** prev takes over m: what that leaves of the mbufs behind, and of the room in prev. */
  lemma {:induction false} OverRest(mem: Mem, c: seq<Id>, j: nat)
    requires Ok(mem) && LinkedTo(mem.mbufs, c, None) && 0 < j < |c| && AbsorbFits(mem, c[j - 1], c[j])
    requires Len(mem, c[j]) <= Trailing(mem, c[j - 1]) && Ext(mem, c[j - 1]) && Own(mem, c[j - 1])
    ensures var mem' := Absorb(mem, c[j - 1], c[j], mem.mbufs[c[j]].next);
            && Without1(mem, mem', c[j + 1..], c[j]) && Ext(mem', c[j - 1])
            && Trailing(mem', c[j - 1]) == Trailing(mem, c[j - 1]) - Len(mem, c[j])
  {
    var m, n := c[j - 1], c[j];
    assert m in mem.mbufs && n in mem.mbufs && m != n && mem.stores[mem.mbufs[m].store].refs == 1;
    hide Ok, LinkedTo, Own, Absorb, Ext, Trailing, Len;
    forall x | x in c[j + 1..]
      ensures x in mem.mbufs
              && Carried(mem, Absorb(mem, m, n, mem.mbufs[n].next), x,
                         if mem.mbufs[n].store == mem.mbufs[x].store then 1 else 0)
    {
      BehindIs(mem, c, j, x);
      AbsorbCarries(mem, m, n, mem.mbufs[n].next, x);
    }
    AbsorbTaker(mem, m, n, mem.mbufs[n].next);
  }

  /** The loop of m_unshare at mbuf j of c, after prev: the first e mbufs are known not shared. */
  ghost predicate Walking(mem0: Mem, mem: Mem, c0: seq<Id>, c: seq<Id>, j: nat, e: nat,
                          head: Id, m: Option<Id>, prev: Option<Id>) {
    && Unsharing(mem0, mem, c0, c, e) && j <= e <= |c| && c != [] && head == c[0]
    && m == Head(c[j..], None) && prev == if j == 0 then None else Some(c[j - 1])
  }

  lemma {:induction false} WalkingAt(mem0: Mem, mem: Mem, c0: seq<Id>, c: seq<Id>, j: nat, e: nat, head: Id,
                                     m: Option<Id>, prev: Option<Id>)
    requires Walking(mem0, mem, c0, c, j, e, head, m, prev)
    ensures m.Some? ==> j < |c| && c[j] == m.value && m.value in mem.mbufs
    ensures prev.Some? ==> j > 0 && c[j - 1] == prev.value && prev.value in mem.mbufs && mem.mbufs[prev.value].next == m
    ensures Unsharing(mem0, mem, c0, c, e) && j <= e <= |c|
  {
    hide Unsharing, LinkedTo, Ok;
    WalkBelow(mem0, mem, c0, c, j, e);
    WalkAt(mem0, mem, c0, c, j);
  }

  lemma {:induction false} StepOn(mem0: Mem, mem: Mem, c0: seq<Id>, c: seq<Id>, j: nat, e: nat, head: Id, m: Option<Id>,
                                  prev: Option<Id>)
    requires Walking(mem0, mem, c0, c, j, e, head, m, prev) && m.Some?
    requires !Ext(mem, m.value) || Writable(mem, m.value)
    ensures m.value in mem.mbufs
    ensures Walking(mem0, mem, c0, c, j + 1, if j == e then e + 1 else e, head, mem.mbufs[m.value].next, m)
  {
    hide Unsharing, Ext, Writable, LinkedTo, Ok;
    WalkBelow(mem0, mem, c0, c, j, e);
    WalkAt(mem0, mem, c0, c, j);
    if j == e { WalkOn(mem0, mem, c0, c, j); }
  }

  lemma {:induction false} PrevOwn(mem0: Mem, mem: Mem, c0: seq<Id>, c: seq<Id>, j: nat)
    requires Unsharing(mem0, mem, c0, c, j)
    ensures j > 0 ==> Own(mem, c[j - 1])
  {
    if j > 0 { assert c[..j][j - 1] == c[j - 1]; }
  }

  /** prev takes over the bytes of m. */
  method TakeOver(pool: Pool, prev: Id, m: Id, ghost mem0: Mem, ghost c0: seq<Id>, ghost c: seq<Id>, ghost j: nat,
                  ghost head: Id)
    returns (next: Option<Id>)
    requires Walking(mem0, pool.mem, c0, c, j, j, head, Some(m), Some(prev))
    requires Len(pool.mem, m) <= Trailing(pool.mem, prev) && Ext(pool.mem, prev)
    modifies pool`mem
    ensures 0 < j < |c|
    ensures Walking(mem0, pool.mem, c0, Removed(c, j), j, j, head, next, Some(prev))
    ensures Without1(old(pool.mem), pool.mem, c[j + 1..], m) && Ext(pool.mem, prev)
    ensures Trailing(pool.mem, prev) == Trailing(old(pool.mem), prev) - Len(old(pool.mem), m)
  {
    ghost var e := j;
    PrevOwn(mem0, pool.mem, c0, c, j);
    hide Unsharing, Absorb, Trailing, LinkedTo, Ok, Len, AbsorbFits, Ext, Own, Without1;
    WalkBelow(mem0, pool.mem, c0, c, j, e);
    WalkAt(mem0, pool.mem, c0, c, j);
    WalkAbsorb(mem0, pool.mem, c0, c, j, e);
    OverRest(pool.mem, c, j);
    next := pool.mem.mbufs[m].next;
    pool.mem := Absorb(pool.mem, prev, m, next);
    assert Removed(c, j)[j..] == c[j + 1..];
  }

  /** One turn of the loop. */
  method UnshareOne(pool: Pool, head0: Id, m0: Id, prev0: Option<Id>, ghost mem0: Mem, ghost c0: seq<Id>,
                    ghost c1: seq<Id>, ghost t0: nat, ghost j0: nat, ghost e0: nat, ghost budget0: nat)
    returns (ok: bool, head: Id, m: Option<Id>, prev: Option<Id>, ghost c: seq<Id>, ghost t: nat, ghost j: nat,
             ghost e: nat)
    requires Walking(mem0, pool.mem, c0, c1, j0, e0, head0, Some(m0), prev0) && Ok(mem0)
    requires Tracked(mem0, pool.mem, c0, c1, t0, j0, e0, budget0, pool.budget)
    modifies pool`mem, pool`budget
    ensures ok ==> Walking(mem0, pool.mem, c0, c, j, e, head, m, prev)
    ensures ok ==> |c| - e < |c1| - e0 || (|c| - e == |c1| - e0 && e - j < e0 - j0)
    ensures !ok ==> Ok(pool.mem) && Untouched(mem0, pool.mem, Members(c0)) && Live(pool.mem) == Live(mem0) - Members(c0)
    ensures if ok then Tracked(mem0, pool.mem, c0, c, t, j, e, budget0, pool.budget)
            else budget0 < Need(mem0, c0, 0, None)
  {
    hide Walking, Unsharing, Ok, LinkedTo, Untouched, Live, Ext, Writable, Trailing, Removed, Len, Own, Pieces, Tracked,
         Need, Swapped, Without1;
    ok, head, m, prev, c, t, j, e := true, head0, Some(m0), prev0, c1, t0, j0, e0;
    WalkingAt(mem0, pool.mem, c0, c, j, e, head, m, prev);
    WalkAt(mem0, pool.mem, c0, c, e);
    OwnIs(pool.mem, m0);
    TrackedAt(mem0, pool.mem, c0, c, t, j, e, budget0, pool.budget);
    if j < e { OwnAt(mem0, pool.mem, c0, c, j, e); }
    if j == e { RoomIs(mem0, pool.mem, c0, c, j, e, head, m, prev); }
    ghost var mem1, budget1 := pool.mem, pool.budget;
    if (!Ext(pool.mem, m0) || !Writable(pool.mem, m0))
       && prev.Some? && Ext(pool.mem, prev.value) && Len(pool.mem, m0) <= Trailing(pool.mem, prev.value) {
      m := TakeOver(pool, prev.value, m0, mem0, c0, c, j, head);
      RemovedTail(c, j);
      TrackOver(mem0, mem1, pool.mem, c0, c, Removed(c, j), t, e, budget0, pool.budget);
      c, t := Removed(c, j), t + 1;
    } else if Ext(pool.mem, m0) && !Writable(pool.mem, m0) {
      ok, head, prev, m, c, e := CopyInstead(pool, head, m0, prev, mem0, c0, c, j);
      if ok {
        SwapTracked(mem0, mem1, pool.mem, c0, c1, c, t, j, e, budget0, budget1);
      } else {
        TrackFails(mem0, mem1, c0, c1, t, j, budget0, budget1);
      }
      t, j := t + 1, j + 1;
    } else {
      StepOn(mem0, pool.mem, c0, c, j, e, head, m, prev);
      prev := m;
      m := pool.mem.mbufs[m0].next;
      if j == e {
        DistinctFrom(pool.mem, c, j);
        TrackOn(mem0, pool.mem, c0, c, t, e, budget0, pool.budget);
        t, e := t + 1, e + 1;
      } else {
        TrackPiece(mem0, pool.mem, c0, c, t, j, e, budget0, pool.budget);
      }
      j := j + 1;
    }
  }

  lemma {:induction false} DistinctFrom(mem: Mem, c: seq<Id>, j: nat)
    requires LinkedTo(mem.mbufs, c, None) && j < |c|
    ensures forall u :: j < u < |c| ==> c[u] != c[j]
  {
  }

  lemma {:induction false} RemovedTail(c: seq<Id>, j: nat)
    requires 0 < j < |c|
    ensures |Removed(c, j)| == |c| - 1 && Removed(c, j)[j - 1] == c[j - 1] && Removed(c, j)[j..] == c[j + 1..]
  {
  }

  /** The room that the next mbuf may go into is that of prev. */
  lemma {:induction false} RoomIs(mem0: Mem, mem: Mem, c0: seq<Id>, c: seq<Id>, j: nat, e: nat, head: Id,
                                  m: Option<Id>, prev: Option<Id>)
    requires Walking(mem0, mem, c0, c, j, e, head, m, prev) && j == e
    ensures j <= |c| && RoomAt(mem, c, j)
                        == if prev.Some? && Ext(mem, prev.value) then Some(Trailing(mem, prev.value)) else None
  {
    hide Unsharing, Ext, Trailing;
  }

  lemma {:induction false} SwapTracked(mem0: Mem, mem: Mem, mem': Mem, c0: seq<Id>, c1: seq<Id>, c: seq<Id>, t: nat,
                                       j: nat, e: nat, budget0: nat, budget: nat)
    requires Tracked(mem0, mem, c0, c1, t, j, j, budget0, budget) && Ok(mem0) && Ok(mem)
    requires Swapped(mem, mem', c1, c, j, e) && Ext(mem, c1[j]) && !Own(mem, c1[j]) && Pieces(Len(mem, c1[j])) <= budget
    requires RoomAt(mem, c1, j).None? || Len(mem, c1[j]) > RoomAt(mem, c1, j).value
    ensures Tracked(mem0, mem', c0, c, t + 1, j + 1, e, budget0, budget - Pieces(Len(mem, c1[j])))
  {
    hide Tracked, Ok, Ext, Own, Pieces, Len, Trailing, Without1, AllExt;
    TrackCopy(mem0, mem, mem', c0, c1, c, t, j, e, budget0, budget);
  }

  /** m_unshare: the same bytes in a chain whose clusters nobody else uses; or, exactly when there are
      fewer clusters than the chain needs, nothing left of the chain. */
  method Unshare(pool: Pool, m0: Id, ghost c0: seq<Id>) returns (r: Option<Id>, ghost c: seq<Id>)
    requires Ok(pool.mem) && c0 != [] && c0[0] == m0 && LinkedTo(pool.mem.mbufs, c0, None)
    modifies pool`mem, pool`budget
    ensures r.Some? ==> Rearranged(old(pool.mem), pool.mem, c0, c) && c != [] && c[0] == r.value && AllOwn(pool.mem, c)
    ensures r.None? ==> Ok(pool.mem) && Untouched(old(pool.mem), pool.mem, Members(c0))
                        && Live(pool.mem) == Live(old(pool.mem)) - Members(c0)
    ensures r.Some? <==> old(pool.budget) >= Need(old(pool.mem), c0, 0, None)
    ensures r.Some? ==> pool.budget == old(pool.budget) - Need(old(pool.mem), c0, 0, None)
  {
    hide Walking, Ok, LinkedTo, Untouched, Live, AllOwn, Rearranged, Tracked, Need;
    ghost var mem0, budget0 := pool.mem, pool.budget;
    WalkStart(mem0, c0);
    TrackStart(mem0, c0, budget0);
    var head, m, prev, ok := m0, Some(m0), None, true;
    c := c0;
    ghost var t: nat, j: nat, e: nat := 0, 0, 0;
    while m.Some?
      invariant Walking(mem0, pool.mem, c0, c, j, e, head, m, prev)
      invariant Tracked(mem0, pool.mem, c0, c, t, j, e, budget0, pool.budget)
      decreases |c| - e, e - j
    {
      WalkingAt(mem0, pool.mem, c0, c, j, e, head, m, prev);
      ok, head, m, prev, c, t, j, e := UnshareOne(pool, head, m.value, prev, mem0, c0, c, t, j, e, budget0);
      if !ok { return None, c; }
    }
    r := Some(head);
    WalkHead(mem0, pool.mem, c0, c, j, e, head, m, prev);
    TrackEnd(mem0, pool.mem, c0, c, t, j, e, budget0, pool.budget);
  }

  lemma {:induction false} TrackStart(mem: Mem, c: seq<Id>, budget: nat)
    requires Ok(mem) && LinkedTo(mem.mbufs, c, None)
    ensures Tracked(mem, mem, c, c, 0, 0, 0, budget, budget)
  {
    AllThere(mem, c);
    hide Ok, LinkedTo, Need, AllSame;
    SameStart(mem, c);
  }

  lemma {:induction false} WalkStart(mem: Mem, c: seq<Id>)
    requires Ok(mem) && c != [] && LinkedTo(mem.mbufs, c, None)
    ensures Walking(mem, mem, c, c, 0, 0, c[0], Some(c[0]), None)
  {
    RearrangedSelf(mem, c);
  }

  lemma {:induction false} WalkHead(mem0: Mem, mem: Mem, c0: seq<Id>, c: seq<Id>, j: nat, e: nat, head: Id,
                                    m: Option<Id>, prev: Option<Id>)
    requires Walking(mem0, mem, c0, c, j, e, head, m, prev) && m.None?
    ensures c != [] && c[0] == head && Rearranged(mem0, mem, c0, c) && AllOwn(mem, c) && e == |c|
  {
    WalkDone(mem0, mem, c0, c, e);
  }

  method CopyInstead(pool: Pool, head0: Id, m0: Id, prev0: Option<Id>, ghost mem0: Mem, ghost c0: seq<Id>,
                     ghost c1: seq<Id>, ghost j: nat)
    returns (ok: bool, head: Id, prev: Option<Id>, m: Option<Id>, ghost c: seq<Id>, ghost e: nat)
    requires Walking(mem0, pool.mem, c0, c1, j, j, head0, Some(m0), prev0)
    modifies pool`mem, pool`budget
    ensures ok ==> Walking(mem0, pool.mem, c0, c, j + 1, e, head, m, prev) && |c| - e < |c1| - j
    ensures !ok ==> Ok(pool.mem) && Untouched(mem0, pool.mem, Members(c0)) && Live(pool.mem) == Live(mem0) - Members(c0)
    ensures ok <==> old(pool.budget) >= Pieces(Len(old(pool.mem), m0))
    ensures ok ==> pool.budget == old(pool.budget) - Pieces(Len(old(pool.mem), m0))
    ensures ok ==> Swapped(old(pool.mem), pool.mem, c1, c, j, e)
  {
    hide Unsharing, Ok, LinkedTo, Untouched, Live, Pieces, Len, Swapped;
    var first;
    ok, head, first, c, e := ReplaceByCopy(pool, head0, m0, prev0, mem0, c0, c1, j);
    prev, m := Some(first), None;
    if ok {
      WalkBelow(mem0, pool.mem, c0, c, j + 1, e);
      WalkAt(mem0, pool.mem, c0, c, j + 1);
      m := pool.mem.mbufs[first].next;
    }
  }

  lemma {:induction false} WalkBelow(mem0: Mem, mem: Mem, c0: seq<Id>, c: seq<Id>, j: nat, e: nat)
    requires Unsharing(mem0, mem, c0, c, e) && j <= e
    ensures Unsharing(mem0, mem, c0, c, j)
  {
    hide Own, Rearranged;
    assert forall i :: 0 <= i < j ==> c[..j][i] == c[..e][i];
  }

  lemma {:induction false} WalkDone(mem0: Mem, mem: Mem, c0: seq<Id>, c: seq<Id>, e: nat)
    requires Unsharing(mem0, mem, c0, c, e) && e == |c|
    ensures Rearranged(mem0, mem, c0, c) && AllOwn(mem, c)
  {
    assert c[..e] == c;
  }
}
