/** m_pullup and m_pulldown: bytes made contiguous. */
module MbufPull {
  import opened Basics
  import opened MbufMem
  import opened MbufChains
  import opened MbufEdits
  import opened MbufPool
  import opened MbufUnshare

  // ---- Bytes off the front of a chain ----

  function TrimFront(mem: Mem, n: Id, count: nat): Mem
    requires n in mem.mbufs && count <= mem.mbufs[n].len
  {
    var b := mem.mbufs[n];
    SetMbuf(mem, n, b.(off := b.off + count, len := b.len - count))
  }

  lemma {:induction false} TrimFrontOk(mem: Mem, n: Id, count: nat)
    requires Ok(mem) && n in mem.mbufs && count <= mem.mbufs[n].len
    ensures var mem' := TrimFront(mem, n, count);
            && Ok(mem') && Untouched(mem, mem', {n}) && count <= |Bytes(mem, n)| && n in mem'.mbufs
            && Bytes(mem', n) == Bytes(mem, n)[count..] && mem'.mbufs[n].next == mem.mbufs[n].next
            && Live(mem') == Live(mem)
  {
    hide Ok, Untouched;
    FitsOf(mem, n);
    var b := mem.mbufs[n];
    SetMbufOk(mem, n, b.(off := b.off + count, len := b.len - count));
    Dropped(mem.stores[b.store].bytes, b.off, b.len, count);
    TrimLive(mem, n, count);
  }

  lemma {:induction false} TrimLive(mem: Mem, n: Id, count: nat)
    requires n in mem.mbufs && count <= mem.mbufs[n].len
    ensures Live(TrimFront(mem, n, count)) == Live(mem)
  {
  }

  lemma {:induction false} Dropped(s: seq<byte>, off: nat, len: nat, n: nat)
    requires off + len <= |s| && n <= len
    ensures s[off..off + len][n..] == s[off + n..off + n + (len - n)]
  {
  }

  /** The first mbuf of a chain loses count bytes. */
  lemma {:induction false} TrimmedChain(mem: Mem, rest: seq<Id>, count: nat)
    requires Ok(mem) && rest != [] && LinkedTo(mem.mbufs, rest, None) && count <= Len(mem, rest[0])
    ensures rest[0] in mem.mbufs && count <= mem.mbufs[rest[0]].len
    ensures var mem' := TrimFront(mem, rest[0], count);
            && Ok(mem') && LinkedTo(mem'.mbufs, rest, None) && Untouched(mem, mem', {rest[0]})
            && count <= |ChainBytes(mem, rest)| && ChainBytes(mem', rest) == ChainBytes(mem, rest)[count..]
            && Live(mem') == Live(mem)
  {
    hide Ok, Untouched, Bytes, TrimFront, ChainBytes, Distinct;
    var n, r := rest[0], rest[1..];
    assert rest == [n] + r;
    SegSplit(mem.mbufs, [n], r, None);
    assert n in [n];
    assert mem.mbufs[n].next == Head(r, None);
    TrimFrontOk(mem, n, count);
    var mem' := TrimFront(mem, n, count);
    SegFrame(mem, mem', r, None, {n});
    Alone(mem'.mbufs, n);
    SegJoin(mem'.mbufs, [n], r, None);
    BytesConcat(mem, [n], r);
    BytesConcat(mem', [n], r);
    BytesOne(mem, n);
    BytesOne(mem', n);
  }

  /** The first mbuf of a chain is released. */
  lemma {:induction false} BeheadedChain(mem: Mem, rest: seq<Id>)
    requires Ok(mem) && rest != [] && LinkedTo(mem.mbufs, rest, None)
    ensures rest[0] in mem.mbufs && mem.mbufs[rest[0]].next == Head(rest[1..], None)
    ensures var mem' := FreeOne(mem, rest[0]);
            && Ok(mem') && LinkedTo(mem'.mbufs, rest[1..], None) && Untouched(mem, mem', {rest[0]})
            && ChainBytes(mem, rest) == Bytes(mem, rest[0]) + ChainBytes(mem', rest[1..])
            && Live(mem') == Live(mem) - {rest[0]}
  {
    hide Ok, Untouched, Bytes, FreeOne, ChainBytes, Distinct;
    var n, r := rest[0], rest[1..];
    assert rest == [n] + r;
    SegSplit(mem.mbufs, [n], r, None);
    assert n in [n];
    assert mem.mbufs[n].next == Head(r, None);
    FreeAny(mem, n);
    SegFrame(mem, FreeOne(mem, n), r, None, {n});
    BytesConcat(mem, [n], r);
    BytesOne(mem, n);
  }

  // ---- m_pullup ----

  /** m stands in front of the chain rest; together they hold q, and m has space left. */
  ghost predicate Pulling(mem0: Mem, mem: Mem, c0: seq<Id>, m: Id, rest: seq<Id>, q: seq<byte>, space: nat,
                          total: nat) {
    && Ok(mem) && m !in rest && LinkedTo(mem.mbufs, rest, None) && HasRoom(mem, m, space, total)
    && Bytes(mem, m) + ChainBytes(mem, rest) == q
    && Untouched(mem0, mem, Members(c0)) && OldOrFresh([m] + rest, c0, mem0)
    && Live(mem) == Live(mem0) - Members(c0) + {m} + Members(rest)
  }

  /** m alone uses its storage, and that ends space bytes behind its data. */
  ghost predicate HasRoom(mem: Mem, m: Id, space: nat, total: nat) {
    && m in mem.mbufs && FitsIn(mem.mbufs[m], mem.stores) && mem.stores[mem.mbufs[m].store].refs == 1
    && mem.mbufs[m].off + mem.mbufs[m].len + space == |mem.stores[mem.mbufs[m].store].bytes|
    && mem.mbufs[m].len + space == total
  }

  /** m takes count bytes of n. */
  lemma {:induction false} PullExtend(mem: Mem, m: Id, n: Id, count: nat, space: nat, total: nat)
    requires Ok(mem) && HasRoom(mem, m, space, total) && n in mem.mbufs && m != n && count <= Len(mem, n)
    requires count <= space
    ensures count <= |Bytes(mem, n)|
    ensures var d := Bytes(mem, n)[..count];
            mem.mbufs[m].off + mem.mbufs[m].len + |d| <= |mem.stores[mem.mbufs[m].store].bytes|
    ensures var d := Bytes(mem, n)[..count]; var mem' := Extend(mem, m, d);
            && Ok(mem') && Untouched(mem, mem', {m}) && HasRoom(mem', m, space - count, total)
            && Bytes(mem', m) == Bytes(mem, m) + d && Live(mem') == Live(mem)
  {
    ChainLength(mem, [], n);
    var d := Bytes(mem, n)[..count];
    ExtendOk(mem, m, d);
    ExtendMbufs(mem, m, d);
    hide Ok, Untouched;
  }

  lemma {:induction false} PullAt(mem0: Mem, mem: Mem, c0: seq<Id>, m: Id, rest: seq<Id>, q: seq<byte>, space: nat,
                                  total: nat)
    requires Pulling(mem0, mem, c0, m, rest, q, space, total) && rest != []
    ensures m in mem.mbufs && rest[0] in mem.mbufs && m != rest[0] && Ok(mem) && HasRoom(mem, m, space, total)
    ensures |Bytes(mem, rest[0])| == Len(mem, rest[0])
  {
    assert rest[0] in rest;
    ChainLength(mem, [], rest[0]);
  }

  lemma {:induction false} PullTrim(mem0: Mem, mem: Mem, c0: seq<Id>, m: Id, rest: seq<Id>, q: seq<byte>, space: nat,
                                    total: nat, count: nat)
    requires Pulling(mem0, mem, c0, m, rest, q, space, total) && rest != []
    requires count <= Len(mem, rest[0]) == |Bytes(mem, rest[0])|
    requires count <= space
    requires mem.mbufs[m].off + mem.mbufs[m].len + count <= |mem.stores[mem.mbufs[m].store].bytes|
    ensures var mem1 := Extend(mem, m, Bytes(mem, rest[0])[..count]);
            && rest[0] in mem1.mbufs && count <= mem1.mbufs[rest[0]].len == Len(mem, rest[0])
            && Pulling(mem0, TrimFront(mem1, rest[0], count), c0, m, rest, q, space - count, total)
            && (count == Len(mem, rest[0]) ==> Pulling(mem0, FreeOne(mem1, rest[0]), c0, m, rest[1..], q, space - count,
                                                       total))
  {
    hide Ok, Untouched, Bytes, Extend, ChainBytes, LinkedTo, HasRoom, TrimFront, FreeOne, OldOrFresh;
    PullAt(mem0, mem, c0, m, rest, q, space, total);
    var n := rest[0];
    var d := Bytes(mem, n)[..count];
    PullExtend(mem, m, n, count, space, total);
    var mem1 := Extend(mem, m, d);
    SegFrame(mem, mem1, rest, None, {m});
    UntouchedAt(mem, mem1, {m}, n);
    FrontBytes(mem, rest, count);
    PullTrimmed(mem0, mem, mem1, c0, m, rest, q, space, total, count);
    if count == Len(mem, n) { PullFreed(mem0, mem, mem1, c0, m, rest, q, space, total, count); }
  }

  lemma {:induction false} FrontBytes(mem: Mem, rest: seq<Id>, count: nat)
    requires rest != [] && count <= |Bytes(mem, rest[0])|
    ensures count <= |ChainBytes(mem, rest)| && ChainBytes(mem, rest)[..count] == Bytes(mem, rest[0])[..count]
  {
  }

  /** After m took the bytes, the front of the rest is trimmed. */
  lemma {:induction false} PullTrimmed(mem0: Mem, mem: Mem, mem1: Mem, c0: seq<Id>, m: Id, rest: seq<Id>, q: seq<byte>,
                                       space: nat, total: nat, count: nat)
    requires Pulling(mem0, mem, c0, m, rest, q, space, total) && rest != [] && count <= space
    requires Ok(mem1) && Untouched(mem, mem1, {m}) && LinkedTo(mem1.mbufs, rest, None) && Live(mem1) == Live(mem)
    requires ChainBytes(mem1, rest) == ChainBytes(mem, rest) && count <= Len(mem1, rest[0])
    requires HasRoom(mem1, m, space - count, total)
    requires count <= |ChainBytes(mem, rest)| && Bytes(mem1, m) == Bytes(mem, m) + ChainBytes(mem, rest)[..count]
    ensures rest[0] in mem1.mbufs && count <= mem1.mbufs[rest[0]].len
    ensures Pulling(mem0, TrimFront(mem1, rest[0], count), c0, m, rest, q, space - count, total)
  {
    hide Ok, Untouched, Bytes, ChainBytes, LinkedTo, TrimFront, OldOrFresh, HasRoom;
    var n := rest[0];
    assert n in rest && n != m;
    TrimmedChain(mem1, rest, count);
    var mem2 := TrimFront(mem1, n, count);
    RoomKept(mem1, m, space - count, total, n, count);
    PullUntouched(mem0, mem, mem1, mem2, c0, m, rest);
    assert Bytes(mem, m) + ChainBytes(mem, rest)[..count] + ChainBytes(mem, rest)[count..] == q;
  }

  lemma {:induction false} RoomKept(mem: Mem, m: Id, space: nat, total: nat, n: Id, count: nat)
    requires Ok(mem) && HasRoom(mem, m, space, total) && n in mem.mbufs && n != m && count <= mem.mbufs[n].len
    ensures HasRoom(TrimFront(mem, n, count), m, space, total) && Bytes(TrimFront(mem, n, count), m) == Bytes(mem, m)
    ensures HasRoom(FreeOne(mem, n), m, space, total) && Bytes(FreeOne(mem, n), m) == Bytes(mem, m)
  {
    OnlyUser(mem, m, n);
  }

  lemma {:induction false} PullUntouched(mem0: Mem, mem: Mem, mem1: Mem, mem2: Mem, c0: seq<Id>, m: Id, rest: seq<Id>)
    requires rest != [] && Untouched(mem0, mem, Members(c0)) && OldOrFresh([m] + rest, c0, mem0)
    requires Untouched(mem, mem1, {m}) && Untouched(mem1, mem2, {rest[0]})
    ensures Untouched(mem0, mem2, Members(c0))
  {
    hide Untouched;
    assert m in [m] + rest && rest[0] in [m] + rest;
    UntouchedTrans(mem0, mem, mem1, Members(c0), {m});
    UntouchedTrans(mem0, mem1, mem2, Members(c0), {rest[0]});
  }

  /** After m took all its bytes, the first mbuf of the rest is released. */
  lemma {:induction false} PullFreed(mem0: Mem, mem: Mem, mem1: Mem, c0: seq<Id>, m: Id, rest: seq<Id>, q: seq<byte>,
                                     space: nat, total: nat, count: nat)
    requires Pulling(mem0, mem, c0, m, rest, q, space, total) && rest != [] && count <= space
    requires Ok(mem1) && Untouched(mem, mem1, {m}) && LinkedTo(mem1.mbufs, rest, None) && Live(mem1) == Live(mem)
    requires ChainBytes(mem1, rest) == ChainBytes(mem, rest) && count == Len(mem1, rest[0])
    requires HasRoom(mem1, m, space - count, total)
    requires count <= |ChainBytes(mem, rest)| && Bytes(mem1, m) == Bytes(mem, m) + ChainBytes(mem, rest)[..count]
    ensures Pulling(mem0, FreeOne(mem1, rest[0]), c0, m, rest[1..], q, space - count, total)
  {
    hide Ok, Untouched, Bytes, ChainBytes, LinkedTo, FreeOne, HasRoom;
    var n := rest[0];
    assert n in rest && n != m;
    BeheadedChain(mem1, rest);
    ChainLength(mem1, [], n);
    RoomKept(mem1, m, space - count, total, n, 0);
    PullUntouched(mem0, mem, mem1, FreeOne(mem1, n), c0, m, rest);
    RestLive(mem1, rest);
    assert Bytes(mem, m) + ChainBytes(mem, rest)[..count] + ChainBytes(mem, rest)[count..] == q;
    PulledLive(mem0, mem1, FreeOne(mem1, n), c0, m, rest);
  }

  lemma {:induction false} RestLive(mem: Mem, rest: seq<Id>)
    requires rest != [] && LinkedTo(mem.mbufs, rest, None)
    ensures rest[0] !in rest[1..] && Members(rest) == {rest[0]} + Members(rest[1..])
  {
  }

  lemma {:induction false} PulledLive(mem0: Mem, mem: Mem, mem': Mem, c0: seq<Id>, m: Id, rest: seq<Id>)
    requires rest != [] && rest[0] !in rest[1..] && rest[0] != m && OldOrFresh([m] + rest, c0, mem0)
    requires Live(mem) == Live(mem0) - Members(c0) + {m} + Members(rest) && Live(mem') == Live(mem) - {rest[0]}
    ensures Live(mem') == Live(mem0) - Members(c0) + {m} + Members(rest[1..]) && OldOrFresh([m] + rest[1..], c0, mem0)
  {
    assert rest[0] in [m] + rest;
    forall x ensures x in Live(mem') <==> x in Live(mem0) - Members(c0) + {m} + Members(rest[1..]) {
      assert x in rest <==> x == rest[0] || x in rest[1..];
    }
    forall x | x in [m] + rest[1..] ensures x in [m] + rest { }
  }

  function Max(a: int, b: int): int { if a < b then b else a }

  function MinInt(a: int, b: int): int { if a < b then a else b }

  lemma {:induction false} PullRoom(mem: Mem, m: Id, space: nat, total: nat, count: nat)
    requires HasRoom(mem, m, space, total) && count <= space
    ensures mem.mbufs[m].off + mem.mbufs[m].len + count <= |mem.stores[mem.mbufs[m].store].bytes|
    ensures FitsIn(mem.mbufs[m], mem.stores)
  {
  }

  /** One turn of the copy loop: as much of n as is wanted and fits. */
  method PullOne(pool: Pool, m: Id, n: Id, len: int, space: nat, proto: nat,
                 ghost mem0: Mem, ghost c0: seq<Id>, ghost rest0: seq<Id>, ghost q: seq<byte>, ghost total: nat)
    returns (next: Option<Id>, count: nat, ghost rest: seq<Id>)
    requires Pulling(mem0, pool.mem, c0, m, rest0, q, space, total) && rest0 != [] && rest0[0] == n
    modifies pool`mem
    ensures count <= space && Pulling(mem0, pool.mem, c0, m, rest, q, space - count, total) && next == Head(rest, None)
    ensures rest == rest0[1..] || (rest == rest0 && (len <= space ==> len <= count))
  {
    hide Pulling, Ok, LinkedTo, Untouched, Live, Bytes, HasRoom, FreeOne, TrimFront, Extend;
    PullAt(mem0, pool.mem, c0, m, rest0, q, space, total);
    count := MinInt(MinInt(Max(len, proto), space), Len(pool.mem, n));
    PullRoom(pool.mem, m, space, total, count);
    PullTrim(mem0, pool.mem, c0, m, rest0, q, space, total, count);
    PullNext(mem0, pool.mem, c0, m, rest0, q, space, total);
    next := pool.mem.mbufs[n].next;
    var whole := count == Len(pool.mem, n);
    pool.mem := Extend(pool.mem, m, Bytes(pool.mem, n)[..count]);
    if whole {
      pool.mem := FreeOne(pool.mem, n);
      rest := rest0[1..];
    } else {
      pool.mem := TrimFront(pool.mem, n, count);
      next, rest := Some(n), rest0;
    }
  }

  lemma {:induction false} PullNext(mem0: Mem, mem: Mem, c0: seq<Id>, m: Id, rest: seq<Id>, q: seq<byte>, space: nat,
                                    total: nat)
    requires Pulling(mem0, mem, c0, m, rest, q, space, total) && rest != []
    ensures rest[0] in mem.mbufs && mem.mbufs[rest[0]].next == Head(rest[1..], None)
  {
    assert mem.mbufs[rest[0]].next == if 1 < |rest| then Some(rest[1]) else None;
  }

  /** What m holds, by how much space it has left. */
  lemma {:induction false} PullSize(mem0: Mem, mem: Mem, c0: seq<Id>, m: Id, rest: seq<Id>, q: seq<byte>, space: nat,
                                    total: nat)
    requires Pulling(mem0, mem, c0, m, rest, q, space, total)
    ensures |q| == |Bytes(mem, m)| + |ChainBytes(mem, rest)| && |Bytes(mem, m)| == Len(mem, m)
    ensures rest == [] ==> |q| == Len(mem, m)
    ensures Len(mem, m) + space == total
  {
    ChainLength(mem, [], m);
    if rest == [] { NoBytes(mem); }
  }

  /** The copy loop: until nothing more is wanted or the chain is used up. */
  method PullAll(pool: Pool, m: Id, n0: Id, len0: nat, space0: nat, proto: nat,
                 ghost mem0: Mem, ghost c0: seq<Id>, ghost rest0: seq<Id>, ghost q: seq<byte>, ghost total: nat)
    returns (n: Option<Id>, len: int, ghost rest: seq<Id>, ghost space: nat)
    requires Pulling(mem0, pool.mem, c0, m, rest0, q, space0, total) && rest0 != [] && rest0[0] == n0 && len0 <= space0
    modifies pool`mem
    ensures Pulling(mem0, pool.mem, c0, m, rest, q, space, total) && n == Head(rest, None)
    ensures len - space == len0 - space0 && (len > 0 ==> rest == [])
  {
    hide Pulling;
    var left: nat := space0;
    n, len, rest := Some(n0), len0, rest0;
    var go := true;
    while go
      invariant Pulling(mem0, pool.mem, c0, m, rest, q, left, total) && n == Head(rest, None)
      invariant len - left == len0 - space0 && (go ==> rest != []) && (!go ==> len <= 0 || rest == [])
      decreases go, |rest|
    {
      var count;
      n, count, rest := PullOne(pool, m, n.value, len, left, proto, mem0, c0, rest, q, total);
      len, left := len - count, left - count;
      go := len > 0 && n.Some?;
    }
    space := left;
  }

  /** The first mbuf has room for len bytes where its data are, and something follows it. */
  predicate FitsInPlace(mem: Mem, n: Id, len: nat) {
    && n in mem.mbufs && FitsIn(mem.mbufs[n], mem.stores) && !Ext(mem, n)
    && mem.mbufs[n].off + len < |mem.stores[mem.mbufs[n].store].bytes| && mem.mbufs[n].next.Some?
  }

  lemma {:induction false} StartInPlace(mem: Mem, c: seq<Id>, len: nat)
    requires Ok(mem) && c != [] && LinkedTo(mem.mbufs, c, None) && FitsInPlace(mem, c[0], len)
    ensures |c| > 1 && mem.mbufs[c[0]].next == Some(c[1])
    ensures var b := mem.mbufs[c[0]]; var space := |mem.stores[b.store].bytes| - b.off - b.len;
            Pulling(mem, mem, c, c[0], c[1..], ChainBytes(mem, c), space, b.len + space)
  {
    hide Ok, LinkedTo, Untouched, ChainBytes, Bytes, HasRoom, Pulling, Live, Members, OldOrFresh;
    var m, rest := c[0], c[1..];
    assert c == [] + ([m] + rest) && c == [m] + rest;
    NextIs(mem.mbufs, [], m, rest);
    RoomInPlace(mem, m, len);
    PullStart(mem, c, |mem.stores[mem.mbufs[m].store].bytes| - mem.mbufs[m].off - mem.mbufs[m].len);
  }

  lemma {:induction false} PullStart(mem: Mem, c: seq<Id>, space: nat)
    requires Ok(mem) && c != [] && LinkedTo(mem.mbufs, c, None) && HasRoom(mem, c[0], space, Len(mem, c[0]) + space)
    ensures Pulling(mem, mem, c, c[0], c[1..], ChainBytes(mem, c), space, Len(mem, c[0]) + space)
  {
    hide Ok, LinkedTo, Untouched, ChainBytes, Bytes, HasRoom;
    var m, rest := c[0], c[1..];
    assert c == [m] + rest;
    SegSplit(mem.mbufs, [m], rest, None);
    assert m in [m];
    UntouchedSelf(mem);
    UntouchedWiden(mem, mem, {}, Members(c));
    ShortMembers(mem, c);
    BytesConcat(mem, [m], rest);
    BytesOne(mem, m);
  }

  lemma {:induction false} RoomInPlace(mem: Mem, m: Id, len: nat)
    requires Ok(mem) && FitsInPlace(mem, m, len)
    ensures var b := mem.mbufs[m]; var space := |mem.stores[b.store].bytes| - b.off - b.len;
            HasRoom(mem, m, space, b.len + space)
  {
    assert Counted(mem, mem.mbufs[m].store);
    hide Ok;
  }

  lemma {:induction false} ShortMembers(mem: Mem, c: seq<Id>)
    requires c != [] && LinkedTo(mem.mbufs, c, None)
    ensures Live(mem) == Live(mem) - Members(c) + {c[0]} + Members(c[1..])
  {
    forall x | x in c ensures x in Live(mem) {
      var i :| 0 <= i < |c| && c[i] == x;
    }
    forall x ensures x in c <==> x == c[0] || x in c[1..] {
    }
  }

  lemma {:induction false} StartNew(mem0: Mem, mem: Mem, c: seq<Id>, i: Id, room: nat)
    requires Ok(mem0) && LinkedTo(mem0.mbufs, c, None) && NewOne(mem0, mem, i, room)
    ensures Pulling(mem0, mem, c, i, c, ChainBytes(mem0, c), room, room)
  {
    hide Ok, LinkedTo, ChainBytes, Untouched;
    FitsOf(mem, i);
    ChainLength(mem, [], i);
    NotInChain(mem0.mbufs, c, i);
    SegFrame(mem0, mem, c, None, {});
    UntouchedWiden(mem0, mem, {}, Members(c));
    NewMembers(mem0, c);
    assert [] + ChainBytes(mem, c) == ChainBytes(mem, c);
  }

  lemma {:induction false} NewMembers(mem: Mem, c: seq<Id>)
    requires LinkedTo(mem.mbufs, c, None)
    ensures Live(mem) == Live(mem) - Members(c) + Members(c)
  {
    forall x | x in c ensures x in Live(mem) {
      var i :| 0 <= i < |c| && c[i] == x;
    }
  }

  /** m_move_pkthdr leaves n without its header. */
  function DropHdr(mem: Mem, n: Id): Mem
    requires n in mem.mbufs
  {
    SetMbuf(mem, n, mem.mbufs[n].(hdr := false))
  }

  lemma {:induction false} HdrDropped(mem0: Mem, mem: Mem, c0: seq<Id>, m: Id, rest: seq<Id>, q: seq<byte>, space: nat,
                                      total: nat)
    requires Pulling(mem0, mem, c0, m, rest, q, space, total) && rest != []
    ensures rest[0] in mem.mbufs
    ensures Pulling(mem0, DropHdr(mem, rest[0]), c0, m, rest, q, space, total)
  {
    hide Ok, LinkedTo, Untouched, ChainBytes, Bytes, HasRoom, DropHdr;
    var n := rest[0];
    assert n in rest && n in [m] + rest;
    ChainHdr(mem, rest);
    UntouchedTrans(mem0, mem, DropHdr(mem, n), Members(c0), {n});
    RoomAfter(mem, m, space, total, n);
  }

  lemma {:induction false} ChainHdr(mem: Mem, rest: seq<Id>)
    requires Ok(mem) && rest != [] && LinkedTo(mem.mbufs, rest, None)
    ensures rest[0] in mem.mbufs
    ensures var mem' := DropHdr(mem, rest[0]);
            && Ok(mem') && LinkedTo(mem'.mbufs, rest, None) && ChainBytes(mem', rest) == ChainBytes(mem, rest)
            && Untouched(mem, mem', {rest[0]}) && Live(mem') == Live(mem)
  {
    hide Ok, Untouched, ChainBytes, Bytes, LinkedTo, DropHdr;
    var n, r := rest[0], rest[1..];
    assert rest == [] + ([n] + r);
    NextIs(mem.mbufs, [], n, r);
    HdrOk(mem, n);
    InnerChange(mem, DropHdr(mem, n), [], n, r);
    HdrLive(mem, n);
  }

  lemma {:induction false} HdrOk(mem: Mem, n: Id)
    requires Ok(mem) && n in mem.mbufs
    ensures var mem' := DropHdr(mem, n);
            && Ok(mem') && Untouched(mem, mem', {n}) && n in mem'.mbufs && Bytes(mem', n) == Bytes(mem, n)
            && mem'.mbufs[n].next == mem.mbufs[n].next
  {
    hide Ok, Untouched;
    FitsOf(mem, n);
    SetMbufOk(mem, n, mem.mbufs[n].(hdr := false));
  }

  lemma {:induction false} HdrLive(mem: Mem, n: Id)
    requires n in mem.mbufs
    ensures Live(DropHdr(mem, n)) == Live(mem)
  {
  }

  lemma {:induction false} RoomAfter(mem: Mem, m: Id, space: nat, total: nat, n: Id)
    requires HasRoom(mem, m, space, total) && n in mem.mbufs && n != m
    ensures HasRoom(DropHdr(mem, n), m, space, total) && Bytes(DropHdr(mem, n), m) == Bytes(mem, m)
  {
  }

  lemma {:induction false} PullEnd(mem0: Mem, mem: Mem, c0: seq<Id>, m: Id, rest: seq<Id>, space: nat, total: nat)
    requires Pulling(mem0, mem, c0, m, rest, ChainBytes(mem0, c0), space, total)
    ensures m in mem.mbufs
    ensures Rearranged(mem0, SetNext(mem, m, Head(rest, None)), c0, [m] + rest)
    ensures Len(SetNext(mem, m, Head(rest, None)), m) == Len(mem, m)
  {
    hide Ok, LinkedTo, Untouched, ChainBytes, Bytes;
    assert m in [m] + rest;
    SetNextOk(mem, m, Head(rest, None));
    NextLive(mem, m, Head(rest, None));
    var mem' := SetNext(mem, m, Head(rest, None));
    SegFrame(mem, mem', rest, None, {m});
    Alone(mem'.mbufs, m);
    assert Apart([m], rest);
    SegJoin(mem'.mbufs, [m], rest, None);
    UntouchedTrans(mem0, mem, mem', Members(c0), {m});
    BytesConcat(mem', [m], rest);
    BytesOne(mem', m);
    assert Members([m] + rest) == {m} + Members(rest);
  }

  lemma {:induction false} PullFail(mem0: Mem, mem: Mem, c0: seq<Id>, m: Id, q: seq<byte>, space: nat, total: nat)
    requires Pulling(mem0, mem, c0, m, [], q, space, total)
    ensures var mem' := FreeOne(mem, m);
            Ok(mem') && Untouched(mem0, mem', Members(c0)) && Live(mem') == Live(mem0) - Members(c0)
  {
    hide Ok, LinkedTo, Untouched, ChainBytes, Bytes, FreeOne;
    assert m in [m] + [];
    FreeAny(mem, m);
    UntouchedTrans(mem0, mem, FreeOne(mem, m), Members(c0), {m});
    assert m in Members(c0) || m !in Live(mem0);
  }

  /** m_pullup: the first len bytes of the chain in one mbuf. It succeeds exactly when the chain
      is long enough and they fit into the first mbuf or into a new one; otherwise the chain is
      released. */
  method Pullup(pool: Pool, n0: Id, len: nat, proto: nat, ghost c0: seq<Id>) returns (r: Option<Id>, ghost c: seq<Id>)
    requires Ok(pool.mem) && c0 != [] && c0[0] == n0 && LinkedTo(pool.mem.mbufs, c0, None) && pool.mhlen <= pool.mlen
    modifies pool`mem, pool`budget
    ensures r.Some? ==> Rearranged(old(pool.mem), pool.mem, c0, c) && c != [] && c[0] == r.value
                        && len <= Len(pool.mem, r.value)
    ensures r.None? ==> Ok(pool.mem) && Untouched(old(pool.mem), pool.mem, Members(c0))
                        && Live(pool.mem) == Live(old(pool.mem)) - Members(c0)
    ensures r.Some? <==> len <= |old(ChainBytes(pool.mem, c0))|
                         && (FitsInPlace(old(pool.mem), n0, len) || (len <= pool.mhlen && old(pool.budget) > 0))
  {
    c := [];
    if FitsInPlace(pool.mem, n0, len) {
      r, c := PullInPlace(pool, n0, len, proto, c0);
    } else if len > pool.mhlen {
      FreeChain(pool, Some(n0), c0);
      r := None;
    } else {
      r, c := PullIntoNew(pool, n0, len, proto, c0);
    }
  }

  method PullInPlace(pool: Pool, n0: Id, len: nat, proto: nat, ghost c0: seq<Id>)
    returns (r: Option<Id>, ghost c: seq<Id>)
    requires Ok(pool.mem) && c0 != [] && c0[0] == n0 && LinkedTo(pool.mem.mbufs, c0, None)
    requires FitsInPlace(pool.mem, n0, len)
    modifies pool`mem
    ensures r.Some? ==> Rearranged(old(pool.mem), pool.mem, c0, c) && c != [] && c[0] == r.value
                        && len <= Len(pool.mem, r.value)
    ensures r.None? ==> Ok(pool.mem) && Untouched(old(pool.mem), pool.mem, Members(c0))
                        && Live(pool.mem) == Live(old(pool.mem)) - Members(c0)
    ensures r.Some? <==> len <= |old(ChainBytes(pool.mem, c0))|
  {
    hide Ok, LinkedTo, ChainBytes, Untouched, Live, Rearranged, Pulling;
    ghost var mem0, q := pool.mem, ChainBytes(pool.mem, c0);
    var b := pool.mem.mbufs[n0];
    StartInPlace(pool.mem, c0, len);
    if b.len >= len {
      RearrangedSelf(pool.mem, c0);
      LongEnough(pool.mem, c0);
      return Some(n0), c0;
    }
    var space := |pool.mem.stores[b.store].bytes| - b.off - b.len;
    ghost var total, rest, left := b.len + space, [], 0;
    var n, more;
    n, more, rest, left := PullAll(pool, n0, b.next.value, len - b.len, space, proto, mem0, c0, c0[1..], q, total);
    r, c := Settle(pool, n0, n, more, mem0, c0, rest, left, total);
  }

  lemma {:induction false} LongEnough(mem: Mem, c: seq<Id>)
    requires Ok(mem) && c != [] && LinkedTo(mem.mbufs, c, None)
    ensures Len(mem, c[0]) <= |ChainBytes(mem, c)|
  {
    ChainLength(mem, [], c[0]);
  }

  /** Link what is left behind m, or give up when that was too little. */
  method Settle(pool: Pool, m: Id, n: Option<Id>, more: int,
                ghost mem0: Mem, ghost c0: seq<Id>, ghost rest: seq<Id>, ghost space: nat, ghost total: nat)
    returns (r: Option<Id>, ghost c: seq<Id>)
    requires Pulling(mem0, pool.mem, c0, m, rest, ChainBytes(mem0, c0), space, total) && n == Head(rest, None)
    requires more > 0 ==> rest == []
    modifies pool`mem
    ensures r.Some? ==> Rearranged(mem0, pool.mem, c0, c) && c != [] && c[0] == r.value
                        && Len(pool.mem, r.value) == total - space
    ensures r.None? ==>
              Ok(pool.mem) && Untouched(mem0, pool.mem, Members(c0)) && Live(pool.mem) == Live(mem0) - Members(c0)
    ensures r.Some? <==> more <= 0
    ensures if more > 0 then |ChainBytes(mem0, c0)| == total - space else |ChainBytes(mem0, c0)| >= total - space
  {
    hide Ok, LinkedTo, ChainBytes, Untouched, Live, Rearranged, Pulling, SetNext, FreeOne;
    PullSize(mem0, pool.mem, c0, m, rest, ChainBytes(mem0, c0), space, total);
    if more > 0 {
      PullFail(mem0, pool.mem, c0, m, ChainBytes(mem0, c0), space, total);
      pool.mem := FreeOne(pool.mem, m);
      return None, [];
    }
    PullEnd(mem0, pool.mem, c0, m, rest, space, total);
    pool.mem := SetNext(pool.mem, m, n);
    r, c := Some(m), [m] + rest;
  }

  method PullIntoNew(pool: Pool, n0: Id, len: nat, proto: nat, ghost c0: seq<Id>)
    returns (r: Option<Id>, ghost c: seq<Id>)
    requires Ok(pool.mem) && c0 != [] && c0[0] == n0 && LinkedTo(pool.mem.mbufs, c0, None)
    requires len <= pool.mhlen <= pool.mlen
    modifies pool`mem, pool`budget
    ensures r.Some? ==> Rearranged(old(pool.mem), pool.mem, c0, c) && c != [] && c[0] == r.value
                        && len <= Len(pool.mem, r.value)
    ensures r.None? ==> Ok(pool.mem) && Untouched(old(pool.mem), pool.mem, Members(c0))
                        && Live(pool.mem) == Live(old(pool.mem)) - Members(c0)
    ensures r.Some? <==> len <= |old(ChainBytes(pool.mem, c0))| && old(pool.budget) > 0
  {
    hide Ok, LinkedTo, ChainBytes, Untouched, Live, Rearranged, Pulling, NewOne;
    ghost var mem0, q := pool.mem, ChainBytes(pool.mem, c0);
    var hdr := Hdr(pool.mem, n0);
    var cap := if hdr then pool.mhlen else pool.mlen;
    var i := pool.Get(cap, false, 0, hdr);
    if i.None? {
      FreeChain(pool, Some(n0), c0);
      return None, [];
    }
    StartNew(mem0, pool.mem, c0, i.value, cap);
    if hdr {
      HdrDropped(mem0, pool.mem, c0, i.value, c0, q, cap, cap);
      pool.mem := DropHdr(pool.mem, n0);
    }
    ghost var rest, left := [], 0;
    var n, more;
    n, more, rest, left := PullAll(pool, i.value, n0, len, cap, proto, mem0, c0, c0, q, cap);
    r, c := Settle(pool, i.value, n, more, mem0, c0, rest, left, cap);
  }
}
