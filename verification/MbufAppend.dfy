/** m_append and m_defrag: bytes copied to the end of a chain, and into as few mbufs as they need. */
module MbufAppend {
  import opened Basics
  import opened MbufMem
  import opened MbufChains
  import opened MbufEdits
  import opened MbufPool
  import opened MbufNeed
  import opened MbufUnshare
  import opened MbufRead

  // ---- m_append ----

  /** The chain a became c, with n bytes of d behind what it held; nobody else was touched. */
  ghost predicate Appended(mem0: Mem, mem: Mem, a: seq<Id>, c: seq<Id>, d: seq<byte>, n: nat) {
    && Ok(mem) && c != [] && LinkedTo(mem.mbufs, c, None) && n <= |d|
    && ChainBytes(mem, c) == ChainBytes(mem0, a) + d[..n]
    && Untouched(mem0, mem, Members(a)) && OldOrFresh(c, a, mem0) && Live(mem) == Live(mem0) - Members(a) + Members(c)
  }

  lemma {:induction false} AppendStart(mem: Mem, a: seq<Id>, d: seq<byte>)
    requires Ok(mem) && a != [] && LinkedTo(mem.mbufs, a, None)
    ensures Appended(mem, mem, a, a, d, 0)
  {
    RearrangedSelf(mem, a);
    assert d[..0] == [] && ChainBytes(mem, a) + [] == ChainBytes(mem, a);
    UntouchedSelf(mem);
    UntouchedWiden(mem, mem, {}, Members(a));
  }

  lemma {:induction false} AppendAt(mem0: Mem, mem: Mem, a: seq<Id>, c: seq<Id>, d: seq<byte>, n: nat)
    requires Appended(mem0, mem, a, c, d, n)
    ensures Ok(mem) && c != [] && c[|c| - 1] in mem.mbufs && LinkedTo(mem.mbufs, c, None)
  {
  }

  /** The room behind the last mbuf takes e. */
  lemma {:induction false} AppendInPlace(mem: Mem, a: seq<Id>, e: seq<byte>)
    requires Ok(mem) && a != [] && LinkedTo(mem.mbufs, a, None) && a[|a| - 1] in mem.mbufs
    requires |e| <= Trailing(mem, a[|a| - 1])
    ensures FitsIn(mem.mbufs[a[|a| - 1]], mem.stores)
    ensures var b := mem.mbufs[a[|a| - 1]]; b.off + b.len + |e| <= |mem.stores[b.store].bytes|
    ensures var mem' := Extend(mem, a[|a| - 1], e);
            && Ok(mem') && LinkedTo(mem'.mbufs, a, None) && ChainBytes(mem', a) == ChainBytes(mem, a) + e
            && Untouched(mem, mem', {a[|a| - 1]}) && Live(mem') == Live(mem)
  {
    hide Ok, LinkedTo, ChainBytes, Untouched, Extend, Bytes, Trailing, Live;
    var k := |a| - 1;
    var z, m := a[..k], a[k];
    TrailingRoom(mem, m, |e|);
    assert a == z + ([m] + []);
    NextIs(mem.mbufs, z, m, []);
    ExtendOk(mem, m, e);
    ExtendLive(mem, m, e);
    InnerChange(mem, Extend(mem, m, e), z, m, []);
    NoBytes(mem);
    assert ChainBytes(mem, z) + (Bytes(mem, m) + e) + [] == ChainBytes(mem, z) + Bytes(mem, m) + [] + e;
  }

  lemma {:induction false} TrailingRoom(mem: Mem, m: Id, n: nat)
    requires Ok(mem) && m in mem.mbufs && n <= Trailing(mem, m)
    ensures FitsIn(mem.mbufs[m], mem.stores) && (n == 0 || mem.stores[mem.mbufs[m].store].refs == 1)
    ensures mem.mbufs[m].off + mem.mbufs[m].len + n <= |mem.stores[mem.mbufs[m].store].bytes|
  {
    FitsOf(mem, m);
  }

  lemma {:induction false} ExtendLive(mem: Mem, m: Id, e: seq<byte>)
    requires m in mem.mbufs && FitsIn(mem.mbufs[m], mem.stores)
    requires mem.mbufs[m].off + mem.mbufs[m].len + |e| <= |mem.stores[mem.mbufs[m].store].bytes|
    ensures Live(Extend(mem, m, e)) == Live(mem) && m in Extend(mem, m, e).mbufs
    ensures Extend(mem, m, e).mbufs[m].next == mem.mbufs[m].next
  {
  }

  lemma {:induction false} AppendedInPlace(mem: Mem, a: seq<Id>, d: seq<byte>, n: nat)
    requires Ok(mem) && a != [] && LinkedTo(mem.mbufs, a, None) && a[|a| - 1] in mem.mbufs
    requires n <= |d| && n <= Trailing(mem, a[|a| - 1])
    ensures FitsIn(mem.mbufs[a[|a| - 1]], mem.stores)
    ensures var b := mem.mbufs[a[|a| - 1]]; b.off + b.len + n <= |mem.stores[b.store].bytes|
    ensures Appended(mem, Extend(mem, a[|a| - 1], d[..n]), a, a, d, n)
  {
    AppendInPlace(mem, a, d[..n]);
    hide Ok, LinkedTo, ChainBytes, Untouched, Extend;
    RearrangedSelf(mem, a);
    assert a[|a| - 1] in a;
    UntouchedWiden(mem, Extend(mem, a[|a| - 1], d[..n]), {a[|a| - 1]}, Members(a));
  }

  /** A new mbuf with the next piece goes to the end. */
  lemma {:induction false} AppendNext(mem0: Mem, mem: Mem, mem1: Mem, a: seq<Id>, c: seq<Id>, d: seq<byte>, n: nat,
                                      i: Id, k: nat)
    requires Appended(mem0, mem, a, c, d, n) && n + k <= |d| && Copied(mem, mem1, [i], d[n..n + k])
    ensures c[|c| - 1] in mem1.mbufs
    ensures Appended(mem0, SetNext(mem1, c[|c| - 1], Some(i)), a, c + [i], d, n + k)
  {
    hide Ok, LinkedTo, ChainBytes, Untouched, SetNext, AllOwn, OwnKept, Live, OldOrFresh, AllNew;
    JoinNew(mem, mem1, c, i);
    Longer(ChainBytes(mem0, a), d, n, k);
    AppendFrame(mem0, mem, mem1, SetNext(mem1, c[|c| - 1], Some(i)), a, c, i);
  }

  lemma {:induction false} Longer(p: seq<byte>, d: seq<byte>, n: nat, k: nat)
    requires n + k <= |d|
    ensures p + d[..n] + d[n..n + k] == p + d[..n + k]
  {
  }

  lemma {:induction false} AppendFrame(mem0: Mem, mem: Mem, mem1: Mem, mem2: Mem, a: seq<Id>, c: seq<Id>, i: Id)
    requires c != [] && Untouched(mem0, mem, Members(a)) && Untouched(mem, mem1, {})
    requires Untouched(mem1, mem2, {c[|c| - 1]})
    requires OldOrFresh(c, a, mem0) && AllNew([i], mem) && Live(mem) == Live(mem0) - Members(a) + Members(c)
    requires Live(mem1) == Live(mem) + Members([i]) && Live(mem2) == Live(mem1)
    ensures Untouched(mem0, mem2, Members(a)) && OldOrFresh(c + [i], a, mem0)
    ensures Live(mem2) == Live(mem0) - Members(a) + Members(c + [i])
  {
    assert c[|c| - 1] in c && i in [i];
    forall x | x in mem0.mbufs && x !in a ensures x in mem.mbufs { UntouchedAt(mem0, mem, Members(a), x); }
    hide Untouched;
    UntouchedTrans(mem0, mem, mem1, Members(a), {});
    UntouchedTrans(mem0, mem1, mem2, Members(a), {c[|c| - 1]});
    assert Members(c + [i]) == Members(c) + Members([i]);
  }

  /** A new mbuf holding d: a cluster, or with the data inside. */
  method NewPiece(pool: Pool, room: nat, ext: bool, hdr: bool, d: seq<byte>) returns (i: Option<Id>)
    requires Ok(pool.mem) && |d| <= room
    modifies pool`mem, pool`budget
    ensures i.None? ==> pool.mem == old(pool.mem)
    ensures (i.Some? <==> old(pool.budget) > 0) && pool.budget == if i.Some? then old(pool.budget) - 1 else 0
    ensures i.Some? ==> Copied(old(pool.mem), pool.mem, [i.value], d)
    ensures i.Some? ==> Trailing(pool.mem, i.value) == room - |d| && RoomKept(old(pool.mem), pool.mem)
  {
    hide Ok, Copied, NewOne, Trailing, RoomKept;
    ghost var mem0 := pool.mem;
    i := pool.Get(room, ext, 0, hdr);
    if i.Some? {
      FirstCopy(mem0, pool.mem, i.value, room, d);
      RoomLeft(mem0, pool.mem, i.value, room, d);
      RoomStays(mem0, pool.mem, i.value, room, d);
      pool.mem := Extend(pool.mem, i.value, d);
    }
  }

  /** The room behind every mbuf is what it was. */
  ghost predicate RoomKept(mem: Mem, mem': Mem) { forall x :: x in mem.mbufs ==> Trailing(mem', x) == Trailing(mem, x) }

  lemma {:induction false} RoomStays(mem0: Mem, mem: Mem, i: Id, room: nat, d: seq<byte>)
    requires Ok(mem0) && NewOne(mem0, mem, i, room) && i in mem.mbufs && FitsIn(mem.mbufs[i], mem.stores)
    requires mem.mbufs[i].off + mem.mbufs[i].len + |d| <= |mem.stores[mem.mbufs[i].store].bytes|
    ensures RoomKept(mem0, Extend(mem, i, d))
  {
    hide Ok, Trailing, Extend, NewOne, FitsIn;
    forall x | x in mem0.mbufs ensures Trailing(Extend(mem, i, d), x) == Trailing(mem0, x) {
      RoomNew(mem0, mem, i, room, x);
      RoomExtend(mem, i, d, x);
    }
  }

  lemma {:induction false} RoomNew(mem0: Mem, mem: Mem, i: Id, room: nat, x: Id)
    requires Ok(mem0) && NewOne(mem0, mem, i, room) && x in mem0.mbufs
    ensures x != i && Trailing(mem, x) == Trailing(mem0, x)
  {
    FitsOf(mem0, x);
    hide Ok;
    UntouchedAt(mem0, mem, {}, x);
  }

  lemma {:induction false} RoomExtend(mem: Mem, i: Id, d: seq<byte>, x: Id)
    requires i in mem.mbufs && FitsIn(mem.mbufs[i], mem.stores) && x != i
    requires mem.mbufs[i].off + mem.mbufs[i].len + |d| <= |mem.stores[mem.mbufs[i].store].bytes|
    ensures Trailing(Extend(mem, i, d), x) == Trailing(mem, x)
  {
  }

  /** What m_append takes: the room behind the last mbuf, and new mbufs of mlen bytes as long as there are any. */
  ghost function Capacity(mem: Mem, last: Id, mlen: nat, budget: nat): nat { Trailing(mem, last) + budget * mlen }

  lemma {:induction false} CapacityAt(mem: Mem, last: Id, mlen: nat, budget: nat)
    ensures Trailing(mem, last) == Capacity(mem, last, mlen, 0) <= Capacity(mem, last, mlen, budget)
  {
    hide Trailing;
    if budget > 0 { CapacityGrows(mem, last, mlen, 0, budget); }
  }

  lemma {:induction false} CapacityGrows(mem: Mem, last: Id, mlen: nat, k: nat, b: nat)
    requires k < b
    ensures Capacity(mem, last, mlen, k + 1) == Capacity(mem, last, mlen, k) + mlen
    ensures Capacity(mem, last, mlen, k + 1) <= Capacity(mem, last, mlen, b)
    decreases b - k
  {
    hide Trailing;
    if k + 1 < b { CapacityGrows(mem, last, mlen, k + 1, b); }
  }

  /** m_append: as much of d as room and memory allow. */
  method Append(pool: Pool, m0: Id, d: seq<byte>, ghost a: seq<Id>) returns (done: bool, ghost c: seq<Id>, ghost n: nat)
    requires Ok(pool.mem) && a != [] && a[0] == m0 && LinkedTo(pool.mem.mbufs, a, None) && pool.mlen > 0
    modifies pool`mem, pool`budget
    ensures Appended(old(pool.mem), pool.mem, a, c, d, n) && c[0] == m0
    ensures n == Min(|d|, Capacity(old(pool.mem), a[|a| - 1], pool.mlen, old(pool.budget))) && done == (n == |d|)
  {
    hide Ok, LinkedTo, Appended, Copied, Extend, SetNext, Trailing, Capacity;
    ghost var mem0, last, budget0 := pool.mem, a[|a| - 1], pool.budget;
    CapacityAt(mem0, last, pool.mlen, budget0);
    var m := pool.Last(m0, a);
    AppendStart(mem0, a, d);
    AppendAt(mem0, mem0, a, a, d, 0);
    var off: nat := Min(Trailing(pool.mem, m), |d|);
    c := a;
    if off > 0 {
      AppendedInPlace(mem0, a, d, off);
      pool.mem := Extend(pool.mem, m, d[..off]);
    }
    while off < |d|
      invariant off <= |d| && Appended(mem0, pool.mem, a, c, d, off) && c != [] && c[0] == m0 && m == c[|c| - 1]
      invariant pool.budget <= budget0 && off <= Capacity(mem0, last, pool.mlen, budget0)
      invariant off < |d| ==> off == Capacity(mem0, last, pool.mlen, budget0 - pool.budget)
      decreases |d| - off
    {
      AppendAt(mem0, pool.mem, a, c, d, off);
      if pool.budget > 0 { CapacityGrows(mem0, last, pool.mlen, budget0 - pool.budget, budget0); }
      var k := Min(pool.mlen, |d| - off);
      ghost var mem1 := pool.mem;
      var i := NewPiece(pool, pool.mlen, false, false, d[off..off + k]);
      if i.None? { return false, c, off; }
      AppendNext(mem0, mem1, pool.mem, a, c, d, off, i.value, k);
      pool.mem := SetNext(pool.mem, m, i);
      m, c, off := i.value, c + [i.value], off + k;
    }
    done, n := true, off;
  }

  // ---- m_defrag ----

  /** No chain of mbufs that hold a cluster or less is shorter than that many pieces. */
  lemma {:induction false} PiecesAreFewest(mem: Mem, c: seq<Id>)
    requires c != [] && forall i :: 0 <= i < |c| ==> |Bytes(mem, c[i])| <= MCLBYTES
    ensures Pieces(|ChainBytes(mem, c)|) <= |c|
  {
    var n := |ChainBytes(mem, c)|;
    if |c| == 1 {
      assert c == [c[0]];
      BytesOne(mem, c[0]);
    } else {
      PiecesAreFewest(mem, c[1..]);
      PiecesGrow(|ChainBytes(mem, c[1..])| + MCLBYTES, n);
    }
  }

  lemma {:induction false} PiecesGrow(a: nat, b: nat)
    requires b <= a
    ensures Pieces(b) <= Pieces(a)
  {
    if b > MCLBYTES { PiecesGrow(a - MCLBYTES, b - MCLBYTES); }
  }

  /** The first n bytes of the chain are in came, and more are to come only when its last mbuf is full. */
  ghost predicate Packing(mem0: Mem, mem: Mem, came: seq<Id>, b: seq<byte>, n: nat) {
    && n <= |b| && Copied(mem0, mem, came, b[..n])
    && (n < |b| ==> Trailing(mem, came[|came| - 1]) == 0 && |came| + Pieces(|b| - n) == Pieces(|b|))
    && (n == |b| ==> |came| == Pieces(|b|))
  }

  lemma {:induction false} PackFirst(mem0: Mem, mem: Mem, i: Id, b: seq<byte>, n: nat, room: nat)
    requires n == Min(|b|, MCLBYTES) && Copied(mem0, mem, [i], b[..n]) && Trailing(mem, i) == room - n
    requires |b| > MCLBYTES ==> room == MCLBYTES
    ensures Packing(mem0, mem, [i], b, n)
  {
    hide Copied, Trailing;
  }

  lemma {:induction false} PackNext(mem0: Mem, mem: Mem, mem1: Mem, came: seq<Id>, b: seq<byte>, n: nat, i: Id, k: nat)
    requires Packing(mem0, mem, came, b, n) && n < |b| && k == Min(|b| - n, MCLBYTES)
    requires Copied(mem, mem1, [i], b[n..n + k])
    requires RoomKept(mem, mem1) && (|b| - n > MCLBYTES ==> Trailing(mem1, i) == 0)
    ensures came != [] && came[|came| - 1] in mem1.mbufs && came[|came| - 1] != i
    ensures Trailing(mem1, came[|came| - 1]) == 0 && Len(mem1, i) == k > 0
    ensures Packing(mem0, SetNext(mem1, came[|came| - 1], Some(i)), came + [i], b, n + k)
  {
    hide Copied, Trailing, SetNext, RoomKept;
    LastThere(mem0, mem, came, b[..n]);
    OneCopied(mem, mem1, i, b[n..n + k], came[|came| - 1]);
    NextCopy(mem0, mem, came, b[..n], mem1, i, b[n..n + k]);
    assert b[..n] + b[n..n + k] == b[..n + k];
    RoomAt(mem, mem1, came[|came| - 1]);
    RoomNext(mem1, came[|came| - 1], Some(i), i);
  }

  lemma {:induction false} RoomAt(mem: Mem, mem1: Mem, x: Id)
    requires RoomKept(mem, mem1) && x in mem.mbufs
    ensures Trailing(mem1, x) == Trailing(mem, x)
  {
  }

  lemma {:induction false} LastThere(mem0: Mem, mem: Mem, came: seq<Id>, d: seq<byte>)
    requires Copied(mem0, mem, came, d)
    ensures came != [] && came[|came| - 1] in mem.mbufs && Ok(mem)
  {
  }

  lemma {:induction false} OneCopied(mem: Mem, mem1: Mem, i: Id, e: seq<byte>, x: Id)
    requires Copied(mem, mem1, [i], e) && x in mem.mbufs
    ensures x != i && Len(mem1, i) == |e| && x in mem1.mbufs && i in mem1.mbufs && Ok(mem1)
  {
    assert i in [i];
    assert [i][0] in mem1.mbufs;
    BytesOne(mem1, i);
    ChainLength(mem1, [], i);
  }

  /** The chain c became d, of as few mbufs as can be. */
  ghost predicate Defragged(mem0: Mem, mem: Mem, c: seq<Id>, d: seq<Id>) {
    Rearranged(mem0, mem, c, d) && d != [] && |d| == Pieces(|ChainBytes(mem0, c)|)
  }

  lemma {:induction false} FirstThere(mem: Mem, c: seq<Id>)
    requires c != [] && LinkedTo(mem.mbufs, c, None)
    ensures c[0] in mem.mbufs
  {
  }

  /** m_defrag. A chain without a packet header comes back as it is. */
  method Defrag(pool: Pool, m0: Id, ghost c: seq<Id>) returns (r: Option<Id>, ghost d: seq<Id>)
    requires Ok(pool.mem) && c != [] && c[0] == m0 && LinkedTo(pool.mem.mbufs, c, None) && pool.mhlen < MCLBYTES
    requires pool.mlen <= MCLBYTES
    modifies pool`mem, pool`budget
    ensures !Hdr(old(pool.mem), m0) ==> r == Some(m0) && pool.mem == old(pool.mem)
    ensures r.None? ==> Ok(pool.mem) && Untouched(old(pool.mem), pool.mem, {}) && Live(pool.mem) == Live(old(pool.mem))
    ensures Hdr(old(pool.mem), m0) ==> (r.Some? <==> old(pool.budget) >= Pieces(|old(ChainBytes(pool.mem, c))|))
    ensures r.Some? && Hdr(old(pool.mem), m0) ==> Defragged(old(pool.mem), pool.mem, c, d) && r == Head(d, None)
  {
    hide Ok, LinkedTo, ChainBytes, Untouched, Live, Defragged, Packing, Copied, RoomKept, Trailing, Pieces;
    PiecesAre(|ChainBytes(pool.mem, c)|);
    d := c;
    ghost var mem0, b := pool.mem, ChainBytes(pool.mem, c);
    FirstThere(mem0, c);
    if !pool.mem.mbufs[m0].hdr { return Some(m0), c; }
    var total := Length(pool, Some(m0), c);
    var n := Min(total, MCLBYTES);
    var piece := CopyData(pool, Some(m0), 0, n, c);
    UntouchedSelf(mem0);
    var room := if total > pool.mhlen then MCLBYTES else pool.mhlen;
    var i := NewPiece(pool, room, total > pool.mhlen, true, piece);
    if i.None? { return None, c; }
    PackFirst(mem0, pool.mem, i.value, b, n, room);
    d := [i.value];
    r := i;
    while n < total
      invariant n <= total == |b| && Packing(mem0, pool.mem, d, b, n) && d != [] && r == Some(d[0])
      invariant pool.budget + |d| == old(pool.budget)
      decreases total - n
    {
      var ok;
      ok, n, d := PackOne(pool, m0, r.value, n, total, mem0, b, c, d);
      if !ok { return None, d; }
    }
    PackedAll(mem0, pool.mem, d, b);
    Finish(pool, m0, mem0, b, c, d);
  }

  /** One more mbuf of the new chain. */
  method PackOne(pool: Pool, m0: Id, first: Id, n0: nat, total: nat,
                 ghost mem0: Mem, ghost b: seq<byte>, ghost c: seq<Id>, ghost came: seq<Id>)
    returns (ok: bool, n: nat, ghost d: seq<Id>)
    requires Ok(mem0) && LinkedTo(mem0.mbufs, c, None) && c != [] && c[0] == m0 && b == ChainBytes(mem0, c)
    requires n0 < total == |b| && Packing(mem0, pool.mem, came, b, n0) && came != [] && came[0] == first
    requires pool.mlen <= MCLBYTES
    modifies pool`mem, pool`budget
    ensures ok ==> n0 < n <= total && Packing(mem0, pool.mem, d, b, n) && d != [] && d[0] == first
    ensures ok ==> |d| == |came| + 1 && pool.budget == old(pool.budget) - 1
    ensures !ok ==> Ok(pool.mem) && Untouched(mem0, pool.mem, {}) && Live(pool.mem) == Live(mem0)
    ensures !ok ==> old(pool.budget) == 0 && |came| < Pieces(|b|)
  {
    hide Ok, LinkedTo, ChainBytes, Untouched, Live, Packing, Copied, RoomKept, Trailing, SetNext;
    ghost var mem1 := pool.mem;
    PackedOk(mem0, mem1, came, b, n0, c);
    var length := Min(total - n0, MCLBYTES);
    var piece := CopyData(pool, Some(m0), n0, length, c);
    var room := if length > pool.mlen then MCLBYTES else pool.mlen;
    var i := NewPiece(pool, room, length > pool.mlen, false, piece);
    if i.None? {
      DropCopies(pool, Some(first), mem0, came, b[..n0]);
      MoreToCome(mem0, mem1, came, b, n0);
      return false, n0, came;
    }
    FullRoom(total - n0, length, room, pool.mlen);
    PackNext(mem0, mem1, pool.mem, came, b, n0, i.value, length);
    JoinReady(mem0, mem1, pool.mem, came, b, n0, i.value, piece);
    d := pool.Cat(first, i, came, [i.value]);
    ok, n := true, n0 + length;
  }

  lemma {:induction false} PiecesAre(n: nat)
    ensures Pieces(n) >= 1
  {
  }

  lemma {:induction false} MoreToCome(mem0: Mem, mem: Mem, came: seq<Id>, b: seq<byte>, n: nat)
    requires Packing(mem0, mem, came, b, n) && n < |b|
    ensures |came| < Pieces(|b|)
  {
    hide Copied, Trailing;
  }

  lemma {:induction false} PackedAll(mem0: Mem, mem: Mem, came: seq<Id>, b: seq<byte>)
    requires Packing(mem0, mem, came, b, |b|)
    ensures |came| == Pieces(|b|)
  {
    hide Copied, Trailing, Pieces;
  }

  lemma {:induction false} FullRoom(left: nat, length: nat, room: nat, mlen: nat)
    requires length == Min(left, MCLBYTES) && room == (if length > mlen then MCLBYTES else mlen) && mlen <= MCLBYTES
    ensures left > MCLBYTES ==> room - length == 0
  {
  }

  /** While copying, the old chain is as it was. */
  lemma {:induction false} PackedOk(mem0: Mem, mem: Mem, came: seq<Id>, b: seq<byte>, n: nat, c: seq<Id>)
    requires Packing(mem0, mem, came, b, n) && LinkedTo(mem0.mbufs, c, None)
    ensures n <= |b| && Copied(mem0, mem, came, b[..n])
    ensures Ok(mem) && LinkedTo(mem.mbufs, c, None) && ChainBytes(mem, c) == ChainBytes(mem0, c)
    ensures Untouched(mem0, mem, {})
  {
    SegFrame(mem0, mem, c, None, {});
  }

  /** The chain so far and the new mbuf can be joined. */
  lemma {:induction false} JoinReady(mem0: Mem, mem: Mem, mem1: Mem, came: seq<Id>, b: seq<byte>, n: nat, i: Id,
                                     e: seq<byte>)
    requires Packing(mem0, mem, came, b, n) && Copied(mem, mem1, [i], e)
    ensures Ok(mem1) && LinkedTo(mem1.mbufs, came, None) && LinkedTo(mem1.mbufs, [i], None) && Apart(came, [i])
  {
    NewApart(mem, came, [i]);
    SegFrame(mem, mem1, came, None, {});
  }

  /** The old chain goes. */
  method Finish(pool: Pool, m0: Id, ghost mem0: Mem, ghost b: seq<byte>, ghost c: seq<Id>, ghost d: seq<Id>)
    requires Ok(mem0) && LinkedTo(mem0.mbufs, c, None) && c != [] && c[0] == m0 && b == ChainBytes(mem0, c)
    requires Packing(mem0, pool.mem, d, b, |b|)
    modifies pool`mem
    ensures Defragged(mem0, pool.mem, c, d)
  {
    hide Ok, LinkedTo, ChainBytes, Untouched, Live, Packing, Copied, Defragged;
    ghost var mem1 := pool.mem;
    PackedOk(mem0, mem1, d, b, |b|, c);
    FreeChain(pool, Some(m0), c);
    Packed(mem0, mem1, pool.mem, b, c, d);
  }

  lemma {:induction false} Packed(mem0: Mem, mem: Mem, mem': Mem, b: seq<byte>, c: seq<Id>, d: seq<Id>)
    requires LinkedTo(mem0.mbufs, c, None) && b == ChainBytes(mem0, c) && Packing(mem0, mem, d, b, |b|)
    requires Ok(mem') && Untouched(mem, mem', Members(c)) && Live(mem') == Live(mem) - Members(c)
    ensures Defragged(mem0, mem', c, d)
  {
    hide Ok, LinkedTo, ChainBytes, Untouched, Trailing, AllOwn, OwnKept, Pieces;
    assert b[..|b|] == b;
    NewApart(mem0, c, d);
    SegFrame(mem, mem', d, None, Members(c));
    UntouchedWiden(mem0, mem, {}, Members(c));
    UntouchedTrans(mem0, mem, mem', Members(c), Members(c));
    forall x ensures x in Live(mem') <==> x in Live(mem0) - Members(c) + Members(d) {
      assert x in d ==> x !in c;
    }
  }
}
